/** The per-client aggregation fold of `analyzeClients`: rows sharing a
    client id are folded into one aggregate record held in an
    insertion-ordered `Map`. */
module Aggregation {
  import opened Wrappers
  import opened Collections
  import opened Classification

  /** The running figures of an aggregate record. */
  datatype Stats = Stats(
    loanAmount: real,
    paidAmount: real,
    outstanding: real,
    maxDaysOverdue: nat,
    isOverdue: bool,
    risk: Risk,
    latestDueDate: Option<int>)

  /** The figures of a client no row has contributed to yet. */
  const Zero := Stats(0.0, 0.0, 0.0, 0, false, Low, None)

  /** The due-date rule: a present date replaces an absent one, and a later
      present date replaces an earlier one; an absent date never replaces a
      present one. */
  function Later(current: Option<int>, due: Option<int>): (r: Option<int>)
    ensures r == current || r == due
    ensures r.None? <==> current.None? && due.None?
    ensures r.Some? && current.Some? ==> r.value >= current.value
    ensures r.Some? && due.Some? ==> r.value >= due.value
  {
    if current.None? || (due.Some? && due.value > current.value) then due else current
  }

  /** Combines the figures of two disjoint groups of rows: sums, maximum of
      days overdue, or of the overdue flags, the higher risk, the later due
      date. */
  function Merge(a: Stats, b: Stats): Stats {
    Stats(
      a.loanAmount + b.loanAmount,
      a.paidAmount + b.paidAmount,
      a.outstanding + b.outstanding,
      if b.maxDaysOverdue > a.maxDaysOverdue then b.maxDaysOverdue else a.maxDaysOverdue,
      a.isOverdue || b.isOverdue,
      Upgrade(a.risk, b.risk),
      Later(a.latestDueDate, b.latestDueDate))
  }

  /** The figures one row contributes. */
  function RowStats(row: ClientRow, today: int): Stats {
    var a := Assess(row, today);
    Stats(row.loanAmount, row.paidAmount, a.outstanding, a.daysOverdue, a.isOverdue, a.risk, row.dueDate)
  }

  /** `Merge` is a commutative monoid with unit `Zero`, so the figures of a
      group do not depend on the order its rows are folded in. */
  lemma MergeLaws(a: Stats, b: Stats, c: Stats)
    ensures Merge(a, Zero) == a && Merge(Zero, a) == a
    ensures Merge(a, b) == Merge(b, a)
    ensures Merge(Merge(a, b), c) == Merge(a, Merge(b, c))
  {
    assert Upgrade(a.risk, b.risk) == Upgrade(b.risk, a.risk) by {
      if RiskRank(a.risk) == RiskRank(b.risk) {
        assert a.risk == b.risk;
      }
    }
    assert Later(a.latestDueDate, b.latestDueDate) == Later(b.latestDueDate, a.latestDueDate);
  }

  /** Merging into a record that holds only a due date equal to the
      merged one changes nothing of the merged figures. */
  lemma MergeSeed(x: Stats)
    ensures Merge(Zero.(latestDueDate := x.latestDueDate), x) == x
  {
  }

  /** The figures of a sequence of rows folded from the left. */
  function Total(rows: seq<ClientRow>, today: int): Stats
    decreases |rows|
  {
    if rows == [] then Zero
    else Merge(Total(rows[..|rows| - 1], today), RowStats(rows[|rows| - 1], today))
  }

  /** Folding a concatenation is merging the folds of its parts. */
  lemma {:induction false} TotalAppend(xs: seq<ClientRow>, ys: seq<ClientRow>, today: int)
    ensures Total(xs + ys, today) == Merge(Total(xs, today), Total(ys, today))
    decreases |ys|
  {
    if ys == [] {
      assert xs + ys == xs;
      MergeLaws(Total(xs, today), Zero, Zero);
    } else {
      var n := |ys| - 1;
      assert (xs + ys)[..|xs + ys| - 1] == xs + ys[..n];
      TotalAppend(xs, ys[..n], today);
      MergeLaws(Total(xs, today), Total(ys[..n], today), RowStats(ys[n], today));
    }
  }

  /** Order independence: any permutation of the rows has the same figures. */
  lemma {:induction false} TotalPermutation(xs: seq<ClientRow>, ys: seq<ClientRow>, today: int)
    requires multiset(xs) == multiset(ys)
    ensures Total(xs, today) == Total(ys, today)
    decreases |xs|
  {
    if xs == [] {
      assert |ys| == |multiset(ys)| == 0;
    } else {
      var n := |xs| - 1;
      assert xs[n] in multiset(ys) by {
        assert xs[n] in multiset(xs);
      }
      var k :| 0 <= k < |ys| && ys[k] == xs[n];
      MultisetRemove(xs, ys, k);
      TotalPermutation(xs[..n], ys[..k] + ys[k + 1..], today);
      TotalInsert(ys[..k], xs[n], ys[k + 1..], today);
    }
  }

  /** A row in the middle contributes as if it came last. */
  lemma TotalInsert(left: seq<ClientRow>, x: ClientRow, right: seq<ClientRow>, today: int)
    ensures Total(left + [x] + right, today) == Merge(Total(left + right, today), RowStats(x, today))
  {
    var A, B, X := Total(left, today), Total(right, today), RowStats(x, today);
    TotalAppend(left, right, today);
    TotalAppend(left + [x], right, today);
    TotalAppend(left, [x], today);
    assert Total([x], today) == Merge(Zero, X) by {
      assert [x][..0] == [];
    }
    MergeLaws(X, Zero, Zero);
    MergeLaws(A, X, B);
    MergeLaws(A, B, X);
    MergeLaws(X, B, Zero);
  }

  /** Sum of the loan amounts of the rows. */
  function LoanSum(rows: seq<ClientRow>): real
    decreases |rows|
  {
    if rows == [] then 0.0 else LoanSum(rows[..|rows| - 1]) + rows[|rows| - 1].loanAmount
  }

  /** Sum of the amounts paid on the rows. */
  function PaidSum(rows: seq<ClientRow>): real
    decreases |rows|
  {
    if rows == [] then 0.0 else PaidSum(rows[..|rows| - 1]) + rows[|rows| - 1].paidAmount
  }

  /** Sum of the per-row outstanding balances (each `max(loan - paid, 0)`). */
  function OutstandingSum(rows: seq<ClientRow>, today: int): real
    decreases |rows|
  {
    if rows == [] then 0.0
    else OutstandingSum(rows[..|rows| - 1], today) + Assess(rows[|rows| - 1], today).outstanding
  }

  /** The three sums of a group are the sums over its rows; the outstanding
      balance is accumulated per row, not recomputed from the totals. */
  lemma {:induction false} TotalSums(rows: seq<ClientRow>, today: int)
    ensures Total(rows, today).loanAmount == LoanSum(rows)
    ensures Total(rows, today).paidAmount == PaidSum(rows)
    ensures Total(rows, today).outstanding == OutstandingSum(rows, today)
    decreases |rows|
  {
    if rows != [] {
      TotalSums(rows[..|rows| - 1], today);
    }
  }

  /** Days overdue of a group is the maximum over its rows (0 for none). */
  lemma {:induction false} TotalMaxDays(rows: seq<ClientRow>, today: int)
    ensures forall k :: 0 <= k < |rows| ==> Assess(rows[k], today).daysOverdue <= Total(rows, today).maxDaysOverdue
    ensures Total(rows, today).maxDaysOverdue == 0 ||
            exists k :: 0 <= k < |rows| && Assess(rows[k], today).daysOverdue == Total(rows, today).maxDaysOverdue
    decreases |rows|
  {
    if rows != [] {
      var n := |rows| - 1;
      TotalMaxDays(rows[..n], today);
      assert forall k :: 0 <= k < n ==> rows[..n][k] == rows[k];
    }
  }

  /** A group is overdue exactly when one of its rows is. */
  lemma {:induction false} TotalOverdue(rows: seq<ClientRow>, today: int)
    ensures Total(rows, today).isOverdue <==> exists k :: 0 <= k < |rows| && Assess(rows[k], today).isOverdue
    decreases |rows|
  {
    if rows != [] {
      var n := |rows| - 1;
      TotalOverdue(rows[..n], today);
      assert forall k :: 0 <= k < n ==> rows[..n][k] == rows[k];
    }
  }

  /** The risk of a group is the highest risk of its rows (low for none). */
  lemma {:induction false} TotalRisk(rows: seq<ClientRow>, today: int)
    ensures forall k :: 0 <= k < |rows| ==> RiskRank(Assess(rows[k], today).risk) <= RiskRank(Total(rows, today).risk)
    ensures Total(rows, today).risk == Low ||
            exists k :: 0 <= k < |rows| && Assess(rows[k], today).risk == Total(rows, today).risk
    decreases |rows|
  {
    if rows != [] {
      var n := |rows| - 1;
      TotalRisk(rows[..n], today);
      assert forall k :: 0 <= k < n ==> rows[..n][k] == rows[k];
    }
  }

  /** The latest due date of a group is the latest present due date of its
      rows, and absent when none of them has one. */
  lemma {:induction false} TotalLatestDue(rows: seq<ClientRow>, today: int)
    ensures Total(rows, today).latestDueDate.None? <==> forall k :: 0 <= k < |rows| ==> rows[k].dueDate.None?
    ensures Total(rows, today).latestDueDate.Some? ==>
              (exists k :: 0 <= k < |rows| && rows[k].dueDate == Total(rows, today).latestDueDate)
    ensures forall k :: 0 <= k < |rows| && rows[k].dueDate.Some? ==>
              Total(rows, today).latestDueDate.Some? &&
              rows[k].dueDate.value <= Total(rows, today).latestDueDate.value
    decreases |rows|
  {
    if rows != [] {
      var n := |rows| - 1;
      TotalLatestDue(rows[..n], today);
      assert forall k :: 0 <= k < n ==> rows[..n][k] == rows[k];
    }
  }

  /** The invariant every aggregate keeps: the balance is never negative, an
      overdue client has a positive balance, a client is low risk exactly
      when nothing is outstanding, and overdue exactly when at least one day
      overdue. */
  predicate Consistent(s: Stats) {
    && s.outstanding >= 0.0
    && (s.isOverdue ==> s.outstanding > 0.0)
    && (s.risk == Low <==> s.outstanding == 0.0)
    && (s.isOverdue <==> s.maxDaysOverdue >= 1)
  }

  /** Every group of rows yields consistent figures. */
  lemma {:induction false} TotalConsistent(rows: seq<ClientRow>, today: int)
    ensures Consistent(Total(rows, today))
    decreases |rows|
  {
    if rows != [] {
      TotalConsistent(rows[..|rows| - 1], today);
    }
  }

  /** One entry of `clientMap`: the identity fields are those of the first
      row of the client. */
  datatype Aggregate = Aggregate(
    clientId: string,
    clientName: string,
    country: string,
    currency: string,
    lastPaymentDate: Option<int>,
    stats: Stats)

  /** The record `clientMap.set` stores for a new client id. */
  function Seed(row: ClientRow): Aggregate {
    Aggregate(row.clientId, row.clientName, row.country, row.currency, row.lastPaymentDate,
              Zero.(latestDueDate := row.dueDate))
  }

  /** Position of the entry for `id` (`|clients|` when there is none). */
  function IndexOf(clients: seq<Aggregate>, id: string): (k: nat)
    ensures k <= |clients|
    ensures k < |clients| ==> clients[k].clientId == id
    ensures forall j :: 0 <= j < k ==> clients[j].clientId != id
    decreases |clients|
  {
    if clients == [] then 0
    else if clients[0].clientId == id then 0
    else 1 + IndexOf(clients[1..], id)
  }

  /** One iteration of the fold: create the entry if the id is new, then add
      the row's figures to it. */
  function Step(clients: seq<Aggregate>, row: ClientRow, today: int): seq<Aggregate> {
    var k := IndexOf(clients, row.clientId);
    var map' := if k < |clients| then clients else clients + [Seed(row)];
    map'[k := map'[k].(stats := Merge(map'[k].stats, RowStats(row, today)))]
  }

  /** `clientMap` after folding the given rows, in insertion order. */
  function Fold(rows: seq<ClientRow>, today: int): seq<Aggregate>
    decreases |rows|
  {
    if rows == [] then [] else Step(Fold(rows[..|rows| - 1], today), rows[|rows| - 1], today)
  }

  /** The client ids of the entries, in order. */
  function Ids(clients: seq<Aggregate>): seq<string> {
    seq(|clients|, k requires 0 <= k < |clients| => clients[k].clientId)
  }

  /** The client ids of the rows, in order. */
  function RowIds(rows: seq<ClientRow>): seq<string> {
    seq(|rows|, k requires 0 <= k < |rows| => rows[k].clientId)
  }

  /** The rows of one client, in input order. */
  function RowsOf(rows: seq<ClientRow>, id: string): seq<ClientRow>
    decreases |rows|
  {
    if rows == [] then []
    else
      var front := RowsOf(rows[..|rows| - 1], id);
      if rows[|rows| - 1].clientId == id then front + [rows[|rows| - 1]] else front
  }

  /** The aggregate of a client's rows: identity from the first row, figures
      from all of them. */
  function AggregateOf(rows: seq<ClientRow>, today: int): Aggregate
    requires rows != []
  {
    Aggregate(rows[0].clientId, rows[0].clientName, rows[0].country, rows[0].currency,
              rows[0].lastPaymentDate, Total(rows, today))
  }

  /** A client has rows exactly when its id occurs among the row ids. */
  lemma {:induction false} RowsOfEmpty(rows: seq<ClientRow>, id: string)
    ensures RowsOf(rows, id) == [] <==> id !in RowIds(rows)
    decreases |rows|
  {
    if rows != [] {
      var n := |rows| - 1;
      RowsOfEmpty(rows[..n], id);
      assert RowIds(rows) == RowIds(rows[..n]) + [rows[n].clientId];
    }
  }

  /** `clients` is the map the fold must produce for `rows`: one entry per
      distinct client id, in order of first appearance, each the aggregate
      of exactly that client's rows. */
  predicate Summarizes(clients: seq<Aggregate>, rows: seq<ClientRow>, today: int) {
    && Ids(clients) == Dedup(RowIds(rows))
    && forall k :: 0 <= k < |clients| ==>
         RowsOf(rows, clients[k].clientId) != [] &&
         clients[k] == AggregateOf(RowsOf(rows, clients[k].clientId), today)
  }

  /** The fold builds one entry per distinct client id, in order of first
      appearance, and each entry is the aggregate of exactly that client's
      rows: the first row's identity fields and the combined figures of all
      of them. */
  lemma {:induction false} FoldCorrect(rows: seq<ClientRow>, today: int)
    ensures Summarizes(Fold(rows, today), rows, today)
    decreases |rows|
  {
    if rows != [] {
      var n := |rows| - 1;
      FoldCorrect(rows[..n], today);
      assert rows == rows[..n] + [rows[n]];
      StepCorrect(Fold(rows[..n], today), rows[..n], rows[n], today);
    }
  }

  /** One fold step extends a correct map for `rows` to a correct map for
      `rows + [row]`. */
  lemma StepCorrect(clients: seq<Aggregate>, rows: seq<ClientRow>, row: ClientRow, today: int)
    requires Summarizes(clients, rows, today)
    ensures Summarizes(Step(clients, row, today), rows + [row], today)
  {
    var rows' := rows + [row];
    var next := Step(clients, row, today);
    var ids := Ids(clients);
    var k := IndexOf(clients, row.clientId);
    assert k < |clients| ==> ids[k] == row.clientId;
    assert k == |clients| ==> row.clientId !in ids by {
      forall j | 0 <= j < |ids| && k == |clients| ensures ids[j] != row.clientId {
        assert ids[j] == clients[j].clientId;
      }
    }
    assert Ids(next) == Dedup(RowIds(rows')) by {
      assert RowIds(rows') == RowIds(rows) + [row.clientId];
      DedupSnoc(RowIds(rows), row.clientId);
      StepIds(clients, row, today);
    }
    assert forall j :: 0 <= j < |next| ==>
        RowsOf(rows', next[j].clientId) != [] &&
        next[j] == AggregateOf(RowsOf(rows', next[j].clientId), today) by {
      if k < |clients| {
        StepKnownEntries(clients, rows, row, today);
      } else {
        StepNewEntries(clients, rows, row, today);
      }
    }
  }

  /** The entries after a step for a client already in the map. */
  lemma StepKnownEntries(clients: seq<Aggregate>, rows: seq<ClientRow>, row: ClientRow, today: int)
    requires Summarizes(clients, rows, today)
    requires IndexOf(clients, row.clientId) < |clients|
    ensures var next := Step(clients, row, today);
      forall j :: 0 <= j < |next| ==>
        RowsOf(rows + [row], next[j].clientId) != [] &&
        next[j] == AggregateOf(RowsOf(rows + [row], next[j].clientId), today)
  {
    var rows' := rows + [row];
    assert rows'[..|rows'| - 1] == rows;
    StepShape(clients, row, today);
    var k := IndexOf(clients, row.clientId);
    var next := Step(clients, row, today);
    var ids := Ids(clients);
    forall j | 0 <= j < |next|
      ensures RowsOf(rows', next[j].clientId) != [] &&
              next[j] == AggregateOf(RowsOf(rows', next[j].clientId), today)
    {
      if j == k {
        KnownClient(clients[k], rows, row, today);
      } else {
        assert ids[j] == clients[j].clientId && ids[k] == clients[k].clientId;
        assert clients[j].clientId != row.clientId by {
          if j > k {
            assert Distinct(ids) && ids[k] != ids[j];
          }
        }
      }
    }
  }

  /** The entries after a step for a client not yet in the map. */
  lemma StepNewEntries(clients: seq<Aggregate>, rows: seq<ClientRow>, row: ClientRow, today: int)
    requires Summarizes(clients, rows, today)
    requires IndexOf(clients, row.clientId) == |clients|
    requires row.clientId !in RowIds(rows)
    ensures var next := Step(clients, row, today);
      forall j :: 0 <= j < |next| ==>
        RowsOf(rows + [row], next[j].clientId) != [] &&
        next[j] == AggregateOf(RowsOf(rows + [row], next[j].clientId), today)
  {
    var rows' := rows + [row];
    assert rows'[..|rows'| - 1] == rows;
    StepShape(clients, row, today);
    RowsOfEmpty(rows, row.clientId);
    assert RowsOf(rows', row.clientId) == [row];
    NewClient(row, today);
  }

  /** Adding a row to a known client appends it to that client's rows and
      keeps the identity taken from the first one. */
  lemma KnownClient(entry: Aggregate, rows: seq<ClientRow>, row: ClientRow, today: int)
    requires entry.clientId == row.clientId
    requires RowsOf(rows, entry.clientId) != []
    requires entry == AggregateOf(RowsOf(rows, entry.clientId), today)
    ensures var rs := RowsOf(rows + [row], entry.clientId);
      rs != [] && entry.(stats := Merge(entry.stats, RowStats(row, today))) == AggregateOf(rs, today)
  {
    var rs := RowsOf(rows, entry.clientId);
    var rows' := rows + [row];
    assert rows'[..|rows'| - 1] == rows;
    assert RowsOf(rows', entry.clientId) == rs + [row];
    assert (rs + [row])[..|rs|] == rs;
    assert (rs + [row])[0] == rs[0];
  }

  /** The entry created for a new client is the aggregate of its one row. */
  lemma NewClient(row: ClientRow, today: int)
    ensures Seed(row).(stats := Merge(Seed(row).stats, RowStats(row, today))) == AggregateOf([row], today)
  {
    var x := RowStats(row, today);
    assert [row][..0] == [];
    assert Total([row], today) == Merge(Zero, x);
    MergeLaws(x, Zero, Zero);
    assert Seed(row).stats == Zero.(latestDueDate := x.latestDueDate);
    MergeSeed(x);
  }

  /** A fold step updates the entry of a known client in place and appends
      a new entry for a new client, leaving every other entry unchanged. */
  lemma StepShape(clients: seq<Aggregate>, row: ClientRow, today: int)
    ensures var k, next := IndexOf(clients, row.clientId), Step(clients, row, today);
      && (k < |clients| ==>
            |next| == |clients| && next[k] == clients[k].(stats := Merge(clients[k].stats, RowStats(row, today))))
      && (k == |clients| ==>
            |next| == |clients| + 1 && next[k] == Seed(row).(stats := Merge(Seed(row).stats, RowStats(row, today))))
      && forall j :: 0 <= j < |clients| && j != k ==> next[j] == clients[j]
  {
  }

  /** A fold step keeps the ids of existing entries and appends the id of a
      new client. */
  lemma StepIds(clients: seq<Aggregate>, row: ClientRow, today: int)
    ensures Ids(Step(clients, row, today)) ==
            if IndexOf(clients, row.clientId) < |clients| then Ids(clients)
            else Ids(clients) + [row.clientId]
  {
    StepShape(clients, row, today);
    ShapeIds(clients, Step(clients, row, today), row.clientId, IndexOf(clients, row.clientId));
  }

  /** Replacing entry `k` by one with the same id keeps the ids; appending an
      entry for `id` appends `id`. */
  lemma ShapeIds(clients: seq<Aggregate>, next: seq<Aggregate>, id: string, k: nat)
    requires k <= |clients|
    requires k < |clients| ==> |next| == |clients| && next[k].clientId == clients[k].clientId
    requires k == |clients| ==> |next| == |clients| + 1 && next[k].clientId == id
    requires forall j :: 0 <= j < |clients| && j != k ==> next[j] == clients[j]
    ensures Ids(next) == if k < |clients| then Ids(clients) else Ids(clients) + [id]
  {
    var ids, ids' := Ids(clients), Ids(next);
    var want := if k < |clients| then ids else ids + [id];
    assert |ids'| == |want|;
    forall j | 0 <= j < |want| ensures ids'[j] == want[j] {
      assert ids'[j] == next[j].clientId;
      if j < |ids| {
        assert ids[j] == clients[j].clientId;
      }
    }
  }

  /** A client's rows are picked out of a permutation of the input as a
      permutation of the same rows. */
  lemma {:induction false} RowsOfCount(rows: seq<ClientRow>, id: string, r: ClientRow)
    ensures multiset(RowsOf(rows, id))[r] == if r.clientId == id then multiset(rows)[r] else 0
    decreases |rows|
  {
    if rows != [] {
      var n := |rows| - 1;
      RowsOfCount(rows[..n], id, r);
      assert rows == rows[..n] + [rows[n]];
    }
  }

  /** The figures of every client are independent of the order of the rows:
      a permutation of the input gives each client the same figures. */
  lemma FoldOrderIndependent(rows: seq<ClientRow>, shuffled: seq<ClientRow>, id: string, today: int)
    requires multiset(rows) == multiset(shuffled)
    ensures multiset(RowsOf(rows, id)) == multiset(RowsOf(shuffled, id))
    ensures Total(RowsOf(rows, id), today) == Total(RowsOf(shuffled, id), today)
  {
    forall r ensures multiset(RowsOf(rows, id))[r] == multiset(RowsOf(shuffled, id))[r] {
      RowsOfCount(rows, id, r);
      RowsOfCount(shuffled, id, r);
    }
    TotalPermutation(RowsOf(rows, id), RowsOf(shuffled, id), today);
  }
}
