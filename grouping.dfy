/**
 * Sequence helpers shared by the keyed accumulations of the model:
 * the first-seen order of a JavaScript `Set` or of the keys of a plain
 * object, the first index of a key, the elements with a given key, and
 * left-to-right sums (what `reduce((s, x) => s + w(x), 0)` computes).
 */
module Grouping {

  /** No element occurs twice. */
  predicate Distinct<K(==)>(ks: seq<K>) {
    forall i, j :: 0 <= i < j < |ks| ==> ks[i] != ks[j]
  }

  /** The key of each element, in order. */
  function Keys<T, K>(s: seq<T>, key: T -> K): (r: seq<K>)
    ensures |r| == |s|
    ensures forall i :: 0 <= i < |s| ==> r[i] == key(s[i])
  {
    if s == [] then [] else Keys(s[..|s| - 1], key) + [key(s[|s| - 1])]
  }

  /** The index of the first occurrence of `k`. */
  function IndexOf<K(==)>(ks: seq<K>, k: K): (i: nat)
    requires k in ks
    ensures i < |ks| && ks[i] == k
    ensures forall j :: 0 <= j < i ==> ks[j] != k
  {
    if ks[0] == k then 0 else 1 + IndexOf(ks[1..], k)
  }

  /**
   * The distinct elements of `ks` in order of first appearance: what
   * `[...new Set(ks)]` yields, and the key order of an object filled by
   * inserting the keys of `ks` one after another.
   */
  function FirstSeen<K(==,!new)>(ks: seq<K>): (r: seq<K>)
    ensures Distinct(r)
    ensures forall k :: k in r <==> k in ks
    ensures |r| <= |ks|
  {
    if ks == [] then []
    else
      var p, k := FirstSeen(ks[..|ks| - 1]), ks[|ks| - 1];
      assert forall x :: x in ks <==> x in ks[..|ks| - 1] || x == k by {
        assert ks == ks[..|ks| - 1] + [k];
      }
      if k in p then p else p + [k]
  }

  /** Appending one key extends the first-seen order only when the key is new. */
  lemma FirstSeenSnoc<K(!new)>(ks: seq<K>, k: K)
    ensures FirstSeen(ks + [k]) == if k in ks then FirstSeen(ks) else FirstSeen(ks) + [k]
  {
    assert (ks + [k])[..|ks|] == ks;
  }

  /** The first occurrence of a key does not move when elements are appended. */
  lemma {:induction false} IndexOfPrefix<K>(ks: seq<K>, more: seq<K>, k: K)
    requires k in ks
    ensures IndexOf(ks + more, k) == IndexOf(ks, k)
  {
    if ks[0] != k {
      assert (ks + more)[1..] == ks[1..] + more;
      IndexOfPrefix(ks[1..], more, k);
    }
  }

  /** The first-seen order lists keys by increasing first index. */
  lemma {:induction false} FirstSeenOrder<K(!new)>(ks: seq<K>, a: nat, b: nat)
    requires a < b < |FirstSeen(ks)|
    ensures IndexOf(ks, FirstSeen(ks)[a]) < IndexOf(ks, FirstSeen(ks)[b])
  {
    var front, k := ks[..|ks| - 1], ks[|ks| - 1];
    var p := FirstSeen(front);
    assert ks == front + [k];
    var x, y := FirstSeen(ks)[a], FirstSeen(ks)[b];
    if b < |p| {
      assert x == p[a] && y == p[b];
      FirstSeenOrder(front, a, b);
      IndexOfPrefix(front, [k], x);
      IndexOfPrefix(front, [k], y);
    } else {
      assert y == k && k !in front && x == p[a] && x in front;
      IndexOfPrefix(front, [k], x);
      assert IndexOf(ks, y) == |front| by {
        assert ks[|front|] == k;
        assert forall j :: 0 <= j < |front| ==> ks[j] == front[j];
      }
    }
  }

  /** The elements whose key is `k`, in order. */
  function Select<T(!new), K(==)>(s: seq<T>, key: T -> K, k: K): (r: seq<T>)
    ensures |r| <= |s|
    ensures forall x :: x in r <==> x in s && key(x) == k
    ensures k !in Keys(s, key) ==> r == []
  {
    if s == [] then []
    else
      var front, x := s[..|s| - 1], s[|s| - 1];
      assert Keys(s, key) == Keys(front, key) + [key(x)];
      var p := Select(front, key, k);
      if key(x) == k then p + [x] else p
  }

  /** `w(s[0]) + w(s[1]) + ...`, added left to right. */
  function Sum<T>(s: seq<T>, w: T -> real): real {
    if s == [] then 0.0 else Sum(s[..|s| - 1], w) + w(s[|s| - 1])
  }

  /** The elements that satisfy `p`, in order: what `s.filter(p)` returns. */
  function Filter<T(!new)>(s: seq<T>, p: T -> bool): (r: seq<T>)
    ensures |r| <= |s|
    ensures forall x :: x in r <==> x in s && p(x)
  {
    if s == [] then []
    else
      var front, x := s[..|s| - 1], s[|s| - 1];
      assert forall y :: y in s <==> y in front || y == x by {
        assert s == front + [x];
      }
      if p(x) then Filter(front, p) + [x] else Filter(front, p)
  }

  /** `(n + 1) * x == n * x + x`. */
  lemma MulSucc(n: nat, x: real)
    ensures (n + 1) as real * x == n as real * x + x
  {
  }

  /** A sum of weights that lie between `lo` and `hi` lies between `|s| * lo` and `|s| * hi`. */
  lemma {:induction false} SumBounds<T>(s: seq<T>, w: T -> real, lo: real, hi: real)
    requires forall x :: x in s ==> lo <= w(x) <= hi
    ensures |s| as real * lo <= Sum(s, w) <= |s| as real * hi
  {
    if s != [] {
      var front := s[..|s| - 1];
      assert forall x :: x in front ==> x in s;
      SumBounds(front, w, lo, hi);
      assert s[|s| - 1] in s;
      MulSucc(|front|, lo);
      MulSucc(|front|, hi);
    }
  }

  /** `Filter` of a sequence with one more element. */
  lemma FilterSnoc<T(!new)>(s: seq<T>, x: T, p: T -> bool)
    ensures Filter(s + [x], p) == if p(x) then Filter(s, p) + [x] else Filter(s, p)
  {
    assert (s + [x])[..|s|] == s;
  }

  /** Filtering by a stronger test after a weaker one is filtering by the stronger test alone. */
  lemma {:induction false} FilterImplied<T(!new)>(s: seq<T>, p: T -> bool, q: T -> bool)
    requires forall x :: q(x) ==> p(x)
    ensures Filter(Filter(s, p), q) == Filter(s, q)
  {
    if s != [] {
      var front, x := s[..|s| - 1], s[|s| - 1];
      assert s == front + [x];
      FilterImplied(front, p, q);
      FilterSnoc(front, x, p);
      FilterSnoc(front, x, q);
      if p(x) {
        FilterSnoc(Filter(front, p), x, q);
      }
    }
  }

  /** `Keys` of a sequence with one more element. */
  lemma KeysSnoc<T, K>(s: seq<T>, x: T, key: T -> K)
    ensures Keys(s + [x], key) == Keys(s, key) + [key(x)]
  {
    assert (s + [x])[..|s|] == s;
  }

  /** `Select` of a sequence with one more element. */
  lemma SelectSnoc<T(!new), K>(s: seq<T>, x: T, key: T -> K, k: K)
    ensures Select(s + [x], key, k) == if key(x) == k then Select(s, key, k) + [x] else Select(s, key, k)
  {
    assert (s + [x])[..|s|] == s;
  }

  /** `Sum` of a sequence with one more element. */
  lemma SumSnoc<T>(s: seq<T>, x: T, w: T -> real)
    ensures Sum(s + [x], w) == Sum(s, w) + w(x)
  {
    assert (s + [x])[..|s|] == s;
  }

  /** Replacing one element changes the sum by the difference of the two weights. */
  lemma {:induction false} SumUpdate<T>(s: seq<T>, k: nat, x: T, w: T -> real)
    requires k < |s|
    ensures Sum(s[k := x], w) == Sum(s, w) - w(s[k]) + w(x)
  {
    var n := |s| - 1;
    assert s[k := x][..n] == if k == n then s[..n] else s[..n][k := x];
    if k < n {
      SumUpdate(s[..n], k, x, w);
    }
  }
}
