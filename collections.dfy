/** Sequence helpers shared by the pipeline: first-occurrence deduplication
    and `Array.prototype.filter`. */
module Collections {

  /** All elements are pairwise different. */
  predicate Distinct<T(==)>(s: seq<T>) {
    forall i, j :: 0 <= i < j < |s| ==> s[i] != s[j]
  }

  /** The elements of `s` in the order of their first occurrence, each once;
      this is the key order of a JavaScript `Map` or object filled from `s`. */
  function Dedup<T(==)>(s: seq<T>): (d: seq<T>)
    ensures Distinct(d)
    ensures forall k :: 0 <= k < |d| ==> d[k] in s
    ensures forall k :: 0 <= k < |s| ==> s[k] in d
    ensures |d| <= |s|
    decreases |s|
  {
    if s == [] then []
    else
      var front := Dedup(s[..|s| - 1]);
      if s[|s| - 1] in front then front else front + [s[|s| - 1]]
  }

  lemma DedupSnoc<T>(s: seq<T>, x: T)
    ensures Dedup(s + [x]) == if x in Dedup(s) then Dedup(s) else Dedup(s) + [x]
  {
    assert (s + [x])[..|s + [x]| - 1] == s;
  }

  /** The position of the first occurrence of `v` in `s`. */
  function FirstIndex<T(==)>(s: seq<T>, v: T): (k: nat)
    requires v in s
    ensures k < |s| && s[k] == v
    ensures forall j :: 0 <= j < k ==> s[j] != v
    decreases |s|
  {
    if s[0] == v then 0 else 1 + FirstIndex(s[1..], v)
  }

  /** `Dedup` keeps the order of first appearance: the first occurrence of an
      earlier element comes before the first occurrence of a later one. */
  lemma {:induction false} DedupOrder<T>(s: seq<T>)
    ensures forall i, j :: 0 <= i < j < |Dedup(s)| ==> FirstIndex(s, Dedup(s)[i]) < FirstIndex(s, Dedup(s)[j])
    decreases |s|
  {
    if s == [] {
      assert Dedup(s) == [];
    } else {
      var n := |s| - 1;
      var front, x := s[..n], s[n];
      DedupOrder(front);
      assert s == front + [x];
      DedupSnoc(front, x);
      OrderSnoc(front, x, Dedup(front), Dedup(s));
    }
  }

  /** One more element keeps the first-appearance order of `Dedup`. */
  lemma OrderSnoc<T>(front: seq<T>, x: T, d: seq<T>, d': seq<T>)
    requires forall k :: 0 <= k < |d| ==> d[k] in front
    requires forall k :: 0 <= k < |front| ==> front[k] in d
    requires forall i, j :: 0 <= i < j < |d| ==> FirstIndex(front, d[i]) < FirstIndex(front, d[j])
    requires d' == if x in d then d else d + [x]
    ensures forall k :: 0 <= k < |d'| ==> d'[k] in front + [x]
    ensures forall i, j :: 0 <= i < j < |d'| ==> FirstIndex(front + [x], d'[i]) < FirstIndex(front + [x], d'[j])
  {
    var s := front + [x];
    forall k | 0 <= k < |d'| ensures d'[k] in s {
      if k < |d| {
        assert d'[k] == d[k] && d[k] in front;
      } else {
        assert d'[k] == x && s[|front|] == x;
      }
    }
    forall i, j | 0 <= i < j < |d'| ensures FirstIndex(s, d'[i]) < FirstIndex(s, d'[j]) {
      assert d'[i] == d[i];
      FirstIndexSnoc(front, x, d[i]);
      if j < |d| {
        assert d'[j] == d[j];
        FirstIndexSnoc(front, x, d[j]);
      } else {
        assert d'[j] == x && x !in d;
        FirstIndexNew(front, x, d);
      }
    }
  }

  /** Appending an element does not move an existing first occurrence. */
  lemma FirstIndexSnoc<T>(front: seq<T>, x: T, v: T)
    requires v in front
    ensures v in front + [x] && FirstIndex(front + [x], v) == FirstIndex(front, v)
  {
    var k, k' := FirstIndex(front, v), FirstIndex(front + [x], v);
    assert (front + [x])[k] == v;
    assert front[k'] == v;
  }

  /** A new element first occurs at the end. */
  lemma FirstIndexNew<T>(front: seq<T>, x: T, d: seq<T>)
    requires forall k :: 0 <= k < |front| ==> front[k] in d
    requires x !in d
    ensures x in front + [x] && FirstIndex(front + [x], x) == |front|
  {
    assert (front + [x])[|front|] == x;
    assert forall k :: 0 <= k < |front| ==> front[k] != x;
  }

  /** The deduplicated sequence has as many elements as the set of values
      of `s`. */
  lemma {:induction false} DedupSize<T>(s: seq<T>)
    ensures |Dedup(s)| == |set x | x in s|
    decreases |s|
  {
    if s == [] {
      assert (set x | x in s) == {};
    } else {
      var n := |s| - 1;
      var front, y := s[..n], s[n];
      var before := set x | x in front;
      var after := set x | x in s;
      DedupSize(front);
      assert after == before + {y} by {
        assert s == front + [y];
      }
      assert Dedup(s) == if y in Dedup(front) then Dedup(front) else Dedup(front) + [y] by {
        DedupSnoc(front, y);
        assert s == front + [y];
      }
      DedupHas(front, y);
      CountStep(Dedup(front), Dedup(s), before, after, y);
    }
  }

  /** Adding `y` to a sequence and to a set of the same size, both only when
      new, keeps the sizes equal. */
  lemma CountStep<T>(d: seq<T>, d': seq<T>, before: set<T>, after: set<T>, y: T)
    requires |d| == |before|
    requires after == before + {y}
    requires d' == if y in d then d else d + [y]
    requires y in d <==> y in before
    ensures |d'| == |after|
  {
    if y in before {
      assert after == before;
    }
  }

  /** An element is in the deduplicated sequence exactly when it is in the
      sequence. */
  lemma DedupHas<T>(s: seq<T>, y: T)
    ensures y in Dedup(s) <==> y in s
  {
    if y in Dedup(s) {
      var k :| 0 <= k < |Dedup(s)| && Dedup(s)[k] == y;
    }
    if y in s {
      var k :| 0 <= k < |s| && s[k] == y;
    }
  }

  /** A prefix one longer is the prefix and the next element. */
  lemma TakeSnoc<T>(s: seq<T>, i: nat)
    requires i < |s|
    ensures s[..i + 1] == s[..i] + [s[i]]
  {
  }

  /** Taking the last element of `xs` out of a permutation `ys` of it, at a
      position `k` where it occurs, leaves a permutation of the rest. */
  lemma MultisetRemove<T>(xs: seq<T>, ys: seq<T>, k: nat)
    requires multiset(xs) == multiset(ys)
    requires xs != [] && k < |ys| && ys[k] == xs[|xs| - 1]
    ensures ys == ys[..k] + [ys[k]] + ys[k + 1..]
    ensures multiset(xs[..|xs| - 1]) == multiset(ys[..k] + ys[k + 1..])
  {
    var n := |xs| - 1;
    var x := xs[n];
    var left, right := ys[..k], ys[k + 1..];
    assert ys == left + [x] + right;
    var m1, m2 := multiset(xs[..n]), multiset(left + right);
    assert m1 + multiset{x} == multiset(xs) by {
      assert xs == xs[..n] + [x];
    }
    assert m2 + multiset{x} == multiset(ys) by {
      assert multiset(left + [x] + right) == multiset(left) + multiset{x} + multiset(right);
    }
    forall y ensures m1[y] == m2[y] {
      assert (m1 + multiset{x})[y] == (m2 + multiset{x})[y];
    }
  }

  /** `s.filter(p)`: the elements satisfying `p`, in order. */
  function Filter<T>(s: seq<T>, p: T -> bool): (r: seq<T>)
    ensures |r| <= |s|
    ensures forall k :: 0 <= k < |r| ==> p(r[k])
    decreases |s|
  {
    if s == [] then []
    else
      var front := Filter(s[..|s| - 1], p);
      if p(s[|s| - 1]) then front + [s[|s| - 1]] else front
  }

  /** Filtering one more element appends it when it satisfies `p`. */
  lemma FilterSnoc<T>(s: seq<T>, x: T, p: T -> bool)
    ensures Filter(s + [x], p) == if p(x) then Filter(s, p) + [x] else Filter(s, p)
  {
    assert (s + [x])[..|s|] == s;
  }

  /** An element is kept exactly when it occurs and satisfies `p`. */
  lemma {:induction false} FilterMembership<T>(s: seq<T>, p: T -> bool, x: T)
    ensures x in Filter(s, p) <==> x in s && p(x)
    decreases |s|
  {
    if s != [] {
      var n := |s| - 1;
      FilterMembership(s[..n], p, x);
      assert s == s[..n] + [s[n]];
    }
  }

  /** Filters by predicates that agree on the elements are equal. */
  lemma {:induction false} FilterCongruence<T>(s: seq<T>, p: T -> bool, q: T -> bool)
    requires forall k :: 0 <= k < |s| ==> p(s[k]) == q(s[k])
    ensures Filter(s, p) == Filter(s, q)
    decreases |s|
  {
    if s != [] {
      FilterCongruence(s[..|s| - 1], p, q);
    }
  }
}
