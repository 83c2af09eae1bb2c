/**
 * The latest reading per metric key that the storage layer hands to the
 * scoring engine. The database query returns the user's readings newest
 * first; the loop then keeps the first reading of each key it meets.
 */
module Storage {
  import opened Schema
  import opened Grouping

  /** The keep-the-first-of-each-key filter, as a specification. */
  function FirstPerKey(ms: seq<HealthMetric>): (r: seq<HealthMetric>)
    ensures |r| <= |ms|
    ensures forall x :: x in r ==> x in ms
  {
    if ms == [] then []
    else
      var front, m := ms[..|ms| - 1], ms[|ms| - 1];
      var p := FirstPerKey(front);
      if m.metricKey in Keys(front, KeyOf) then p else p + [m]
  }

  /** Readings ordered newest first, as the query's `orderBy(desc(recordedAt))` returns them. */
  predicate NewestFirst(ms: seq<HealthMetric>) {
    forall i, j :: 0 <= i < j < |ms| ==> ms[i].recordedAt >= ms[j].recordedAt
  }

  /** The readings of one user, as the query's `where(eq(userId, ...))` returns them. */
  predicate OfUser(ms: seq<HealthMetric>, userId: int) {
    forall i :: 0 <= i < |ms| ==> ms[i].userId == userId
  }

  /** The dedup loop of `getLatestMetrics`, over the rows the query returned. */
  method LatestMetrics(allMetrics: seq<HealthMetric>) returns (latest: seq<HealthMetric>)
    ensures latest == FirstPerKey(allMetrics)
  {
    var seen: set<string> := {};
    latest := [];
    for i := 0 to |allMetrics|
      invariant forall k :: k in seen <==> k in Keys(allMetrics[..i], KeyOf)
      invariant latest == FirstPerKey(allMetrics[..i])
    {
      var m := allMetrics[i];
      assert allMetrics[..i + 1] == allMetrics[..i] + [m];
      KeysSnoc(allMetrics[..i], m, KeyOf);
      assert allMetrics[..i + 1][..i] == allMetrics[..i];
      if m.metricKey !in seen {
        seen := seen + {m.metricKey};
        latest := latest + [m];
      }
    }
    assert allMetrics[..|allMetrics|] == allMetrics;
  }

  /** The kept keys are the distinct keys of the input, in order of first appearance. */
  lemma {:induction false} LatestKeys(ms: seq<HealthMetric>)
    ensures Keys(FirstPerKey(ms), KeyOf) == FirstSeen(Keys(ms, KeyOf))
  {
    if ms != [] {
      var front, m := ms[..|ms| - 1], ms[|ms| - 1];
      assert ms == front + [m];
      LatestKeys(front);
      KeysSnoc(front, m, KeyOf);
      FirstSeenSnoc(Keys(front, KeyOf), KeyOf(m));
      var p := FirstPerKey(front);
      if m.metricKey !in Keys(front, KeyOf) {
        KeysSnoc(p, m, KeyOf);
      }
    }
  }

  /** Each kept reading is the first reading of its key in the input. */
  lemma {:induction false} LatestAreFirst(ms: seq<HealthMetric>)
    ensures forall k :: 0 <= k < |FirstPerKey(ms)| ==>
              FirstPerKey(ms)[k].metricKey in Keys(ms, KeyOf) &&
              FirstPerKey(ms)[k] == ms[IndexOf(Keys(ms, KeyOf), FirstPerKey(ms)[k].metricKey)]
  {
    if ms != [] {
      var front, m := ms[..|ms| - 1], ms[|ms| - 1];
      assert ms == front + [m];
      LatestAreFirst(front);
      KeysSnoc(front, m, KeyOf);
      var p, r := FirstPerKey(front), FirstPerKey(ms);
      forall k | 0 <= k < |r|
        ensures r[k].metricKey in Keys(ms, KeyOf) && r[k] == ms[IndexOf(Keys(ms, KeyOf), r[k].metricKey)]
      {
        if k < |p| {
          assert r[k] == p[k];
          IndexOfPrefix(Keys(front, KeyOf), [KeyOf(m)], p[k].metricKey);
        } else {
          assert r[k] == m && m.metricKey !in Keys(front, KeyOf);
          var ks := Keys(ms, KeyOf);
          assert ks[|front|] == m.metricKey;
          assert forall j :: 0 <= j < |front| ==> ks[j] == Keys(front, KeyOf)[j];
          assert IndexOf(ks, m.metricKey) == |front|;
        }
      }
    }
  }

  /** Over newest-first input, each kept reading is at least as recent as every reading of its key. */
  lemma LatestIsNewest(ms: seq<HealthMetric>)
    requires NewestFirst(ms)
    ensures forall k, i :: 0 <= k < |FirstPerKey(ms)| && 0 <= i < |ms| && ms[i].metricKey == FirstPerKey(ms)[k].metricKey ==>
              FirstPerKey(ms)[k].recordedAt >= ms[i].recordedAt
  {
    LatestAreFirst(ms);
    var r, ks := FirstPerKey(ms), Keys(ms, KeyOf);
    forall k, i | 0 <= k < |r| && 0 <= i < |ms| && ms[i].metricKey == r[k].metricKey
      ensures r[k].recordedAt >= ms[i].recordedAt
    {
      var j := IndexOf(ks, r[k].metricKey);
      assert ks[i] == r[k].metricKey;
      assert j <= i;
    }
  }

  /** Every key of the input is kept exactly once, and only the user's own readings are kept. */
  lemma LatestCoversKeys(ms: seq<HealthMetric>, userId: int)
    ensures Distinct(Keys(FirstPerKey(ms), KeyOf))
    ensures forall k :: k in Keys(FirstPerKey(ms), KeyOf) <==> k in Keys(ms, KeyOf)
    ensures OfUser(ms, userId) ==> OfUser(FirstPerKey(ms), userId)
  {
    var r := FirstPerKey(ms);
    LatestKeys(ms);
    var fs := FirstSeen(Keys(ms, KeyOf));
    assert Keys(r, KeyOf) == fs;
    assert forall k :: k in fs <==> k in Keys(ms, KeyOf);
    if OfUser(ms, userId) {
      forall i | 0 <= i < |r| ensures r[i].userId == userId {
        assert r[i] in ms;
      }
    }
  }
}
