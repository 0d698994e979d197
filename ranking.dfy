/** The `clientsWithBalance` list of `analyzeClients`: the aggregates with a
    balance or an overdue flag, stably sorted by risk rank descending and
    then by outstanding balance descending. */
module Ranking {
  import opened Classification
  import opened Collections
  import opened Aggregation

  /** The order of the comparator: `a` may come before `b` when its risk rank
      is higher, or equal with an outstanding balance at least as large. */
  predicate Precedes(a: Aggregate, b: Aggregate) {
    || RiskRank(a.stats.risk) > RiskRank(b.stats.risk)
    || (RiskRank(a.stats.risk) == RiskRank(b.stats.risk) && a.stats.outstanding >= b.stats.outstanding)
  }

  /** `Precedes` is a total preorder, so a sorted order exists. */
  lemma PrecedesPreorder(a: Aggregate, b: Aggregate, c: Aggregate)
    ensures Precedes(a, a)
    ensures Precedes(a, b) || Precedes(b, a)
    ensures Precedes(a, b) && Precedes(b, c) ==> Precedes(a, c)
  {
  }

  /** The comparator returns 0 exactly for aggregates with the same risk and
      the same outstanding balance; a stable sort keeps those in input
      order. */
  predicate Tie(a: Aggregate, risk: Risk, outstanding: real) {
    a.stats.risk == risk && a.stats.outstanding == outstanding
  }

  /** Every earlier element may precede every later one. */
  predicate Sorted(s: seq<Aggregate>) {
    forall i, j :: 0 <= i < j < |s| ==> Precedes(s[i], s[j])
  }

  /** The elements of `s` tied at the given key, in order. */
  function Ties(s: seq<Aggregate>, risk: Risk, outstanding: real): seq<Aggregate>
    decreases |s|
  {
    if s == [] then []
    else
      var front := Ties(s[..|s| - 1], risk, outstanding);
      if Tie(s[|s| - 1], risk, outstanding) then front + [s[|s| - 1]] else front
  }

  lemma TiesSnoc(s: seq<Aggregate>, y: Aggregate, risk: Risk, outstanding: real)
    ensures Ties(s + [y], risk, outstanding) ==
            if Tie(y, risk, outstanding) then Ties(s, risk, outstanding) + [y] else Ties(s, risk, outstanding)
  {
    assert (s + [y])[..|s|] == s;
  }

  /** Inserts `x` after every element that may precede it. */
  function Insert(s: seq<Aggregate>, x: Aggregate): (r: seq<Aggregate>)
    ensures multiset(r) == multiset(s) + multiset{x}
    decreases |s|
  {
    if s == [] || Precedes(s[|s| - 1], x) then s + [x]
    else
      assert s == s[..|s| - 1] + [s[|s| - 1]];
      Insert(s[..|s| - 1], x) + [s[|s| - 1]]
  }

  /** The stable insertion sort by `Precedes`. */
  function SortRanked(s: seq<Aggregate>): seq<Aggregate>
    decreases |s|
  {
    if s == [] then [] else Insert(SortRanked(s[..|s| - 1]), s[|s| - 1])
  }

  /** The predicate of `clients.filter(c => c.outstanding > 0 || c.isOverdue)`. */
  predicate HasBalanceOrOverdue(c: Aggregate) {
    c.stats.outstanding > 0.0 || c.stats.isOverdue
  }

  /** The aggregates the ranking keeps. */
  function WithBalance(s: seq<Aggregate>): seq<Aggregate> {
    Filter(s, HasBalanceOrOverdue)
  }

  /** The ranked list of clients with a balance or an overdue flag. */
  function Ranked(s: seq<Aggregate>): seq<Aggregate> {
    SortRanked(WithBalance(s))
  }

  /** Inserting into a sorted sequence keeps it sorted. */
  lemma {:induction false} InsertSorted(s: seq<Aggregate>, x: Aggregate)
    requires Sorted(s)
    ensures Sorted(Insert(s, x))
    decreases |s|
  {
    if s == [] || Precedes(s[|s| - 1], x) {
      if s != [] {
        forall i | 0 <= i < |s| ensures Precedes(s[i], x) {
          PrecedesPreorder(s[i], s[|s| - 1], x);
        }
      }
      SortedSnoc(s, x);
    } else {
      var n := |s| - 1;
      var last, front := s[n], s[..n];
      assert Sorted(front);
      InsertSorted(front, x);
      PrecedesPreorder(last, x, last);
      assert forall i :: 0 <= i < |front| ==> Precedes(front[i], last) by {
        forall i | 0 <= i < |front| ensures Precedes(front[i], last) {
          assert front[i] == s[i];
        }
      }
      InsertBounded(front, x, last);
      assert Insert(s, x) == Insert(front, x) + [last];
      SortedSnoc(Insert(front, x), last);
    }
  }

  /** Appending an element every element may precede keeps a sequence
      sorted. */
  lemma SortedSnoc(s: seq<Aggregate>, y: Aggregate)
    requires Sorted(s)
    requires forall i :: 0 <= i < |s| ==> Precedes(s[i], y)
    ensures Sorted(s + [y])
  {
    var t := s + [y];
    forall i, j | 0 <= i < j < |t| ensures Precedes(t[i], t[j]) {
      assert t[i] == s[i];
      if j < |s| {
        assert t[j] == s[j];
      }
    }
  }

  /** Every element of an insertion may precede `y` when `x` and every
      element of `s` may. */
  lemma {:induction false} InsertBounded(s: seq<Aggregate>, x: Aggregate, y: Aggregate)
    requires forall i :: 0 <= i < |s| ==> Precedes(s[i], y)
    requires Precedes(x, y)
    ensures forall i :: 0 <= i < |Insert(s, x)| ==> Precedes(Insert(s, x)[i], y)
    decreases |s|
  {
    if !(s == [] || Precedes(s[|s| - 1], x)) {
      var n := |s| - 1;
      var front := s[..n];
      assert forall i :: 0 <= i < |front| ==> front[i] == s[i];
      InsertBounded(front, x, y);
      assert Insert(s, x) == Insert(front, x) + [s[n]];
    }
  }

  /** The sort produces a sorted sequence. */
  lemma {:induction false} SortSorted(s: seq<Aggregate>)
    ensures Sorted(SortRanked(s))
    decreases |s|
  {
    if s != [] {
      SortSorted(s[..|s| - 1]);
      InsertSorted(SortRanked(s[..|s| - 1]), s[|s| - 1]);
    }
  }

  /** The sort is a permutation of its input. */
  lemma {:induction false} SortPermutation(s: seq<Aggregate>)
    ensures multiset(SortRanked(s)) == multiset(s)
    decreases |s|
  {
    if s != [] {
      SortPermutation(s[..|s| - 1]);
      assert s == s[..|s| - 1] + [s[|s| - 1]];
    }
  }

  /** Insertion places `x` after the elements tied with it. */
  lemma {:induction false} InsertStable(s: seq<Aggregate>, x: Aggregate, risk: Risk, outstanding: real)
    ensures Ties(Insert(s, x), risk, outstanding) ==
            if Tie(x, risk, outstanding) then Ties(s, risk, outstanding) + [x] else Ties(s, risk, outstanding)
    decreases |s|
  {
    if s == [] || Precedes(s[|s| - 1], x) {
      TiesSnoc(s, x, risk, outstanding);
    } else {
      var n := |s| - 1;
      var last, front := s[n], s[..n];
      InsertStable(front, x, risk, outstanding);
      assert Insert(s, x) == Insert(front, x) + [last];
      assert front + [last] == s;
      TiesBehind(Insert(front, x), front, x, last, risk, outstanding);
    }
  }

  /** When `r` ties like `front` followed by `x`, and `last` and `x` are not
      both tied, `r + [last]` ties like `front + [last]` followed by `x`. */
  lemma TiesBehind(r: seq<Aggregate>, front: seq<Aggregate>, x: Aggregate, last: Aggregate,
                   risk: Risk, outstanding: real)
    requires Ties(r, risk, outstanding) ==
             if Tie(x, risk, outstanding) then Ties(front, risk, outstanding) + [x] else Ties(front, risk, outstanding)
    requires !Precedes(last, x)
    ensures Ties(r + [last], risk, outstanding) ==
            if Tie(x, risk, outstanding) then Ties(front + [last], risk, outstanding) + [x]
            else Ties(front + [last], risk, outstanding)
  {
    TiesSnoc(r, last, risk, outstanding);
    TiesSnoc(front, last, risk, outstanding);
    assert Tie(x, risk, outstanding) ==> !Tie(last, risk, outstanding);
  }

  /** The sort is stable: elements the comparator ties keep their relative
      input order. */
  lemma {:induction false} SortStable(s: seq<Aggregate>, risk: Risk, outstanding: real)
    ensures Ties(SortRanked(s), risk, outstanding) == Ties(s, risk, outstanding)
    decreases |s|
  {
    if s != [] {
      SortStable(s[..|s| - 1], risk, outstanding);
      InsertStable(SortRanked(s[..|s| - 1]), s[|s| - 1], risk, outstanding);
    }
  }

  /** The ranked list: sorted by risk then balance, a permutation of the kept
      aggregates, stable on ties, and holding exactly the aggregates with a
      balance or an overdue flag. */
  lemma RankedCorrect(s: seq<Aggregate>, c: Aggregate, risk: Risk, outstanding: real)
    ensures Sorted(Ranked(s))
    ensures multiset(Ranked(s)) == multiset(WithBalance(s))
    ensures Ties(Ranked(s), risk, outstanding) == Ties(WithBalance(s), risk, outstanding)
    ensures c in Ranked(s) <==> c in s && (c.stats.outstanding > 0.0 || c.stats.isOverdue)
  {
    SortSorted(WithBalance(s));
    SortPermutation(WithBalance(s));
    SortStable(WithBalance(s), risk, outstanding);
    FilterMembership(s, HasBalanceOrOverdue, c);
    assert c in Ranked(s) <==> c in multiset(Ranked(s));
  }
}
