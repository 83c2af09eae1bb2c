/**
 * The metric table as JavaScript actually looks it up. `METRIC_CONFIG` is a plain
 * object literal, so `METRIC_CONFIG[key]` also finds the members every object
 * inherits from `Object.prototype`. For such a key the `!config` guard passes,
 * `config.optimalRange` is `undefined`, and destructuring it into `[low, high]`
 * throws a `TypeError`, which aborts the whole of `calculateBioAge`.
 *
 * `BioAge` models the evidently intended own-property lookup; this module models
 * the lookup as written and shows where the two part.
 */
module PrototypeLookup {
  import opened Wrappers
  import opened Schema
  import opened Grouping
  import opened BioAge

  /** The property names of `Object.prototype`, each of which any object literal inherits. */
  const ObjectPrototypeMembers: set<string> := {
    "constructor", "__defineGetter__", "__defineSetter__", "hasOwnProperty",
    "__lookupGetter__", "__lookupSetter__", "isPrototypeOf", "propertyIsEnumerable",
    "toString", "valueOf", "__proto__", "toLocaleString"
  }

  /** What `METRIC_CONFIG[key]` yields: an own entry, an inherited member, or `undefined`. */
  datatype Lookup = Own(config: MetricConfig) | Inherited | Absent

  /** No metric key names an inherited member. */
  lemma TableKeysAreOwn()
    ensures forall k :: k in MetricTable ==> k !in ObjectPrototypeMembers
  {
    var keys := AllMetricKeys();
    MetricKeysListed();
    forall i | 0 <= i < |keys| ensures keys[i] !in ObjectPrototypeMembers {
    }
  }

  function LookupAsWritten(key: string): (r: Lookup)
    ensures r.Own? <==> key in MetricTable
    ensures r.Own? ==> r.config == MetricTable[key]
    ensures r.Inherited? <==> key in ObjectPrototypeMembers
  {
    TableKeysAreOwn();
    if key in MetricTable then Own(MetricTable[key])
    else if key in ObjectPrototypeMembers then Inherited
    else Absent
  }

  /** The error `computeMetricImpact` raises when it destructures a missing `optimalRange`. */
  const TypeError: string := "TypeError: undefined is not iterable"

  /** `computeMetricImpact` as written. */
  function ImpactAsWritten(key: string, value: real): (r: Result<real, string>)
    ensures r.Failure? <==> key in ObjectPrototypeMembers
    ensures r.Success? ==> r.value == ComputeMetricImpact(key, value)
  {
    match LookupAsWritten(key)
    case Own(_) => Success(ComputeMetricImpact(key, value))
    case Inherited => Failure(TypeError)
    case Absent => Success(0.0)
  }

  /**
   * The first loop of `calculateBioAge` as written: a reading whose key is inherited
   * passes the `!config` guard and then throws inside `computeMetricImpact`.
   */
  function GroupedAsWritten(ms: seq<HealthMetric>, now: int): (r: Result<Tally, string>)
    ensures r.Success? ==> ValidTally(r.value)
  {
    if ms == [] then Success(Tally(map[], []))
    else
      var m := ms[|ms| - 1];
      match GroupedAsWritten(ms[..|ms| - 1], now)
      case Failure(e) => Failure(e)
      case Success(t) =>
        match ImpactAsWritten(m.metricKey, m.value)
        case Failure(e) => Failure(e)
        case Success(_) => if IsKnown(m) then Success(Add(t, EntryOf(m, now))) else Success(t)
  }

  /** `calculateBioAge` as written: the result, or the error that escapes it. */
  function CalculateBioAgeAsWritten(chronologicalAge: real, metrics: seq<HealthMetric>, now: int): Result<BioAgeResult, string>
    requires |metrics| > 0 ==> chronologicalAge != 0.0
  {
    match GroupedAsWritten(metrics, now)
    case Failure(e) => Failure(e)
    case Success(t) => Success(Summary(chronologicalAge, RoundAll(Values(t)), |metrics| > 0))
  }

  /**
   * The code as written throws exactly when some reading's key is an inherited member,
   * and otherwise computes what the own-property lookup computes.
   */
  lemma {:induction false} GroupedAsWrittenAgrees(ms: seq<HealthMetric>, now: int)
    ensures GroupedAsWritten(ms, now).Success? <==> forall i :: 0 <= i < |ms| ==> ms[i].metricKey !in ObjectPrototypeMembers
    ensures GroupedAsWritten(ms, now).Success? ==> GroupedAsWritten(ms, now).value == Grouped(ms, now)
  {
    if ms != [] {
      var front, m := ms[..|ms| - 1], ms[|ms| - 1];
      assert ms == front + [m];
      GroupedAsWrittenAgrees(front, now);
      EntriesSnoc(front, m, now);
      if IsKnown(m) {
        BuildSnoc(Entries(front, now), EntryOf(m, now));
      }
      assert forall i :: 0 <= i < |ms| ==> ms[i] == if i < |front| then front[i] else m;
    }
  }

  lemma CalculateBioAgeAsWrittenAgrees(chronologicalAge: real, metrics: seq<HealthMetric>, now: int)
    requires |metrics| > 0 ==> chronologicalAge != 0.0
    ensures CalculateBioAgeAsWritten(chronologicalAge, metrics, now).Success? <==>
              forall i :: 0 <= i < |metrics| ==> metrics[i].metricKey !in ObjectPrototypeMembers
    ensures CalculateBioAgeAsWritten(chronologicalAge, metrics, now).Success? ==>
              CalculateBioAgeAsWritten(chronologicalAge, metrics, now).value == BioAgeOf(chronologicalAge, metrics, now)
  {
    GroupedAsWrittenAgrees(metrics, now);
  }

  /** One reading keyed "toString" makes the code as written throw, where the own-property lookup skips it. */
  lemma ToStringReadingThrows(chronologicalAge: real, now: int)
    requires chronologicalAge != 0.0
    ensures var ms := [HealthMetric(1, 1, "custom", "toString", 1.0, "", None, now)];
            && CalculateBioAgeAsWritten(chronologicalAge, ms, now) == Failure(TypeError)
            && BioAgeOf(chronologicalAge, ms, now).categories == []
  {
    var ms := [HealthMetric(1, 1, "custom", "toString", 1.0, "", None, now)];
    assert ms[..0] == [];
    assert "toString" in ObjectPrototypeMembers;
    assert GroupedAsWritten(ms, now) == Failure(TypeError);
    NoKnownReadings(chronologicalAge, ms, now);
  }
}
