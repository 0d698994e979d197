/** `analyzeClients` and the upload pipeline around it: field coercion of the
    header-keyed records, the single pass that fills `clientMap` and
    `currencyCounts`, and the portfolio totals. */
module Portfolio {
  import opened Wrappers
  import opened Collections
  import opened Classification
  import opened Aggregation
  import opened Ranking
  import Csv

  /** `r[key]` read as a string; a column the header did not have reads as
      the empty string (both are falsy in the source's `||` chains). */
  function Field(obj: Csv.Record, key: string): string {
    if key in obj then obj[key] else ""
  }

  /** `a || b` on strings: the empty string is falsy. */
  function OrElse(a: string, b: string): string {
    if a != [] then a else b
  }

  /** `parseFloat(s || "0") || 0`: an empty field is 0, and so is a field
      `parseFloat` cannot read (NaN is falsy). `number` stands for
      `parseFloat`. */
  function Amount(s: string, number: string -> Option<real>): real {
    if s == [] then 0.0 else number(s).GetOr(0.0)
  }

  /** `s ? new Date(s) : null`; `date` stands for the date parser and its
      result in milliseconds. */
  function DateOf(s: string, date: string -> Option<int>): Option<int> {
    if s == [] then None else date(s)
  }

  /** The coerced row of one record, or `None` when it has neither a client
      id nor a client name and is skipped. */
  function Normalize(obj: Csv.Record, number: string -> Option<real>, date: string -> Option<int>): (r: Option<ClientRow>)
    ensures r.Some? ==> r.value.clientId != [] && r.value.currency != []
  {
    var id := OrElse(Field(obj, "client_id"), Field(obj, "client_name"));
    if id == [] then None
    else
      Some(ClientRow(
        id,
        OrElse(Field(obj, "client_name"), id),
        OrElse(Field(obj, "country"), "-"),
        OrElse(Field(obj, "currency"), "USD"),
        Amount(Field(obj, "loan_amount"), number),
        Amount(Field(obj, "amount_paid"), number),
        DateOf(Field(obj, "due_date"), date),
        DateOf(Field(obj, "last_payment_date"), date)))
  }

  /** The fall-backs of the coercion: the id is the client id, or the name
      when the id is empty; the record is skipped exactly when both are
      empty; the name falls back to the id, the country to "-" and the
      currency to "USD", so none of them is ever empty; non-empty fields
      pass through; empty amounts read 0 and empty dates are absent. */
  lemma NormalizeDefaults(obj: Csv.Record, number: string -> Option<real>, date: string -> Option<int>)
    ensures Normalize(obj, number, date).None? <==> Field(obj, "client_id") == [] && Field(obj, "client_name") == []
    ensures Normalize(obj, number, date).Some? ==>
      var row := Normalize(obj, number, date).value;
      && row.clientId != [] && row.clientName != [] && row.country != [] && row.currency != []
      && (Field(obj, "client_id") != [] ==> row.clientId == Field(obj, "client_id"))
      && (Field(obj, "client_id") == [] ==> row.clientId == Field(obj, "client_name"))
      && (Field(obj, "client_name") != [] ==> row.clientName == Field(obj, "client_name"))
      && (Field(obj, "client_name") == [] ==> row.clientName == row.clientId)
      && (Field(obj, "country") != [] ==> row.country == Field(obj, "country"))
      && (Field(obj, "country") == [] ==> row.country == "-")
      && (Field(obj, "currency") != [] ==> row.currency == Field(obj, "currency"))
      && (Field(obj, "currency") == [] ==> row.currency == "USD")
      && (Field(obj, "loan_amount") == [] ==> row.loanAmount == 0.0)
      && (Field(obj, "amount_paid") == [] ==> row.paidAmount == 0.0)
      && (Field(obj, "due_date") == [] ==> row.dueDate.None?)
      && (Field(obj, "last_payment_date") == [] ==> row.lastPaymentDate.None?)
  {
  }

  /** The coerced rows of the records that are not skipped, in order. */
  function Accepted(objs: seq<Csv.Record>, number: string -> Option<real>, date: string -> Option<int>): (rows: seq<ClientRow>)
    ensures |rows| <= |objs|
    ensures forall k :: 0 <= k < |rows| ==> rows[k].clientId != [] && rows[k].currency != []
    decreases |objs|
  {
    if objs == [] then []
    else
      var front := Accepted(objs[..|objs| - 1], number, date);
      var r := Normalize(objs[|objs| - 1], number, date);
      if r.Some? then front + [r.value] else front
  }

  /** The record `obj` is kept and coerced to `row`. */
  predicate NormalizesTo(obj: Csv.Record, number: string -> Option<real>, date: string -> Option<int>, row: ClientRow) {
    Normalize(obj, number, date) == Some(row)
  }

  /** A row is analysed exactly when some record normalises to it: every
      record with a client id or a client name is kept. */
  lemma {:induction false} AcceptedMembership(objs: seq<Csv.Record>, number: string -> Option<real>,
                                             date: string -> Option<int>, row: ClientRow)
    ensures row in Accepted(objs, number, date) <==> exists k :: 0 <= k < |objs| && NormalizesTo(objs[k], number, date, row)
    decreases |objs|
  {
    if objs != [] {
      var n := |objs| - 1;
      var front, x := objs[..n], objs[n];
      assert objs == front + [x];
      AcceptedMembership(front, number, date, row);
      AcceptedSnoc(objs, n, number, date);
      assert objs[..n + 1] == objs;
      NormalizedIn(front, x, number, date, row);
    }
  }

  /** The witnesses of an extended sequence of records are those of the
      front and the last record. */
  lemma NormalizedIn(front: seq<Csv.Record>, x: Csv.Record, number: string -> Option<real>,
                     date: string -> Option<int>, row: ClientRow)
    ensures (exists k :: 0 <= k < |front + [x]| && NormalizesTo((front + [x])[k], number, date, row)) <==>
            (exists k :: 0 <= k < |front| && NormalizesTo(front[k], number, date, row)) || NormalizesTo(x, number, date, row)
  {
    var s := front + [x];
    forall k | 0 <= k < |s| && NormalizesTo(s[k], number, date, row)
      ensures (exists k :: 0 <= k < |front| && NormalizesTo(front[k], number, date, row)) || NormalizesTo(x, number, date, row)
    {
      if k < |front| {
        assert front[k] == s[k];
      } else {
        assert s[k] == x;
      }
    }
    forall k | 0 <= k < |front| && NormalizesTo(front[k], number, date, row)
      ensures exists k :: 0 <= k < |s| && NormalizesTo(s[k], number, date, row)
    {
      assert s[k] == front[k];
    }
    assert s[|front|] == x;
  }

  // ---------------------------------------------------------------------
  // currencyCounts

  /** One entry of `currencyCounts`: a currency code and its row count. */
  datatype Tally = Tally(currency: string, rows: nat)

  /** Position of the entry for `code` (`|tallies|` when there is none). */
  function TallyIndex(tallies: seq<Tally>, code: string): (k: nat)
    ensures k <= |tallies|
    ensures k < |tallies| ==> tallies[k].currency == code
    ensures forall j :: 0 <= j < k ==> tallies[j].currency != code
    decreases |tallies|
  {
    if tallies == [] then 0
    else if tallies[0].currency == code then 0
    else 1 + TallyIndex(tallies[1..], code)
  }

  /** `currencyCounts[code] = (currencyCounts[code] || 0) + 1`. */
  function Count(tallies: seq<Tally>, code: string): seq<Tally> {
    var k := TallyIndex(tallies, code);
    if k < |tallies| then tallies[k := tallies[k].(rows := tallies[k].rows + 1)]
    else tallies + [Tally(code, 1)]
  }

  /** `currencyCounts` after counting the given rows. */
  function TalliesOf(rows: seq<ClientRow>): seq<Tally>
    decreases |rows|
  {
    if rows == [] then [] else Count(TalliesOf(rows[..|rows| - 1]), rows[|rows| - 1].currency)
  }

  /** The codes of the entries, in order. */
  function Codes(tallies: seq<Tally>): seq<string> {
    seq(|tallies|, k requires 0 <= k < |tallies| => tallies[k].currency)
  }

  /** The currencies of the rows, in order. */
  function Currencies(rows: seq<ClientRow>): seq<string> {
    seq(|rows|, k requires 0 <= k < |rows| => rows[k].currency)
  }

  /** Number of rows in the given currency. */
  function CountOf(rows: seq<ClientRow>, code: string): nat
    decreases |rows|
  {
    if rows == [] then 0
    else CountOf(rows[..|rows| - 1], code) + (if rows[|rows| - 1].currency == code then 1 else 0)
  }

  /** `tallies` is the object the counting must produce for `rows`: one entry
      per distinct currency in order of first appearance, holding the number
      of rows in that currency. */
  predicate Counts(tallies: seq<Tally>, rows: seq<ClientRow>) {
    && Codes(tallies) == Dedup(Currencies(rows))
    && forall k :: 0 <= k < |tallies| ==> tallies[k].rows == CountOf(rows, tallies[k].currency)
  }

  /** Counting a currency that has no entry yet: no row was in it. */
  lemma {:induction false} CountOfAbsent(rows: seq<ClientRow>, code: string)
    requires code !in Currencies(rows)
    ensures CountOf(rows, code) == 0
    decreases |rows|
  {
    if rows != [] {
      var n := |rows| - 1;
      assert Currencies(rows) == Currencies(rows[..n]) + [rows[n].currency];
      CountOfAbsent(rows[..n], code);
    }
  }

  /** Counting updates the entry of a known currency in place and appends
      an entry for a new one, leaving every other entry unchanged. */
  lemma CountShape(tallies: seq<Tally>, code: string)
    ensures var k, next := TallyIndex(tallies, code), Count(tallies, code);
      && (k < |tallies| ==>
            |next| == |tallies| && next[k] == tallies[k].(rows := tallies[k].rows + 1))
      && (k == |tallies| ==>
            |next| == |tallies| + 1 && next[k] == Tally(code, 1))
      && forall j :: 0 <= j < |tallies| && j != k ==> next[j] == tallies[j]
  {
  }

  /** Counting keeps the codes of existing entries and appends a new code. */
  lemma CountCodes(tallies: seq<Tally>, code: string)
    ensures Codes(Count(tallies, code)) ==
            if TallyIndex(tallies, code) < |tallies| then Codes(tallies) else Codes(tallies) + [code]
  {
    CountShape(tallies, code);
    ShapeCodes(tallies, Count(tallies, code), code, TallyIndex(tallies, code));
  }

  /** Replacing entry `k` by one with the same code keeps the codes;
      appending an entry for `code` appends `code`. */
  lemma ShapeCodes(tallies: seq<Tally>, next: seq<Tally>, code: string, k: nat)
    requires k <= |tallies|
    requires k < |tallies| ==> |next| == |tallies| && next[k].currency == tallies[k].currency
    requires k == |tallies| ==> |next| == |tallies| + 1 && next[k].currency == code
    requires forall j :: 0 <= j < |tallies| && j != k ==> next[j] == tallies[j]
    ensures Codes(next) == if k < |tallies| then Codes(tallies) else Codes(tallies) + [code]
  {
    var codes, codes' := Codes(tallies), Codes(next);
    var want := if k < |tallies| then codes else codes + [code];
    assert |codes'| == |want|;
    forall j | 0 <= j < |want| ensures codes'[j] == want[j] {
      assert codes'[j] == next[j].currency;
      if j < |codes| {
        assert codes[j] == tallies[j].currency;
      }
    }
  }

  /** One counting step extends a correct object for `rows` to one for
      `rows + [row]`. */
  lemma CountCorrect(tallies: seq<Tally>, rows: seq<ClientRow>, row: ClientRow)
    requires Counts(tallies, rows)
    ensures Counts(Count(tallies, row.currency), rows + [row])
  {
    CountCodesStep(tallies, rows, row);
    CountEntries(tallies, rows, row);
  }

  /** The codes after one counting step follow the first appearances. */
  lemma CountCodesStep(tallies: seq<Tally>, rows: seq<ClientRow>, row: ClientRow)
    requires Codes(tallies) == Dedup(Currencies(rows))
    ensures Codes(Count(tallies, row.currency)) == Dedup(Currencies(rows + [row]))
  {
    var k := TallyIndex(tallies, row.currency);
    var codes := Codes(tallies);
    assert k < |tallies| ==> codes[k] == row.currency;
    assert k == |tallies| ==> row.currency !in codes by {
      forall j | 0 <= j < |codes| && k == |tallies| ensures codes[j] != row.currency {
        assert codes[j] == tallies[j].currency;
      }
    }
    assert Codes(Count(tallies, row.currency)) == if k < |tallies| then codes else codes + [row.currency] by {
      CountCodes(tallies, row.currency);
    }
    assert Dedup(Currencies(rows + [row])) ==
           if row.currency in codes then codes else codes + [row.currency] by {
      assert Currencies(rows + [row]) == Currencies(rows) + [row.currency];
      DedupSnoc(Currencies(rows), row.currency);
    }
  }

  /** The counts after one counting step. */
  lemma CountEntries(tallies: seq<Tally>, rows: seq<ClientRow>, row: ClientRow)
    requires Counts(tallies, rows)
    ensures var next := Count(tallies, row.currency);
      forall j :: 0 <= j < |next| ==> next[j].rows == CountOf(rows + [row], next[j].currency)
  {
    var rows' := rows + [row];
    assert rows'[..|rows'| - 1] == rows;
    CountShape(tallies, row.currency);
    var k := TallyIndex(tallies, row.currency);
    var next := Count(tallies, row.currency);
    var codes := Codes(tallies);
    if k == |tallies| {
      assert row.currency !in Currencies(rows) by {
        assert row.currency !in codes by {
          forall j | 0 <= j < |codes| ensures codes[j] != row.currency {
            assert codes[j] == tallies[j].currency;
          }
        }
        forall j | 0 <= j < |rows| ensures Currencies(rows)[j] != row.currency {
          assert Currencies(rows)[j] in Dedup(Currencies(rows));
        }
      }
      CountOfAbsent(rows, row.currency);
    }
    forall j | 0 <= j < |next| ensures next[j].rows == CountOf(rows', next[j].currency) {
      if j != k && k < |tallies| {
        assert codes[j] == tallies[j].currency && codes[k] == tallies[k].currency;
        assert codes[j] != codes[k] by {
          if j > k { assert Distinct(codes); }
        }
      }
    }
  }

  /** `currencyCounts` holds one entry per distinct currency of the accepted
      rows, in order of first appearance, each with its number of rows. */
  lemma {:induction false} TalliesCorrect(rows: seq<ClientRow>)
    ensures Counts(TalliesOf(rows), rows)
    decreases |rows|
  {
    if rows != [] {
      var n := |rows| - 1;
      TalliesCorrect(rows[..n]);
      assert rows == rows[..n] + [rows[n]];
      CountCorrect(TalliesOf(rows[..n]), rows[..n], rows[n]);
    }
  }

  /** Position of the first largest count. */
  function BestIndex(tallies: seq<Tally>): (k: nat)
    requires tallies != []
    ensures k < |tallies|
    ensures forall j :: 0 <= j < |tallies| ==> tallies[j].rows <= tallies[k].rows
    ensures forall j :: 0 <= j < k ==> tallies[j].rows < tallies[k].rows
    decreases |tallies|
  {
    if |tallies| == 1 then 0
    else
      var n := |tallies| - 1;
      var b := BestIndex(tallies[..n]);
      if tallies[n].rows > tallies[b].rows then n else b
  }

  /** The first key of `currencyCounts` after a stable sort by descending
      count, or "USD" when there are no keys. */
  function MainCurrency(tallies: seq<Tally>): string {
    if tallies == [] then "USD" else tallies[BestIndex(tallies)].currency
  }

  /** The main currency is the mode of the accepted rows' currencies: no
      currency has more rows, every currency counted before it has fewer,
      and it falls back to "USD" only when there are no rows (a counted
      currency is never empty). */
  lemma MainCurrencyIsMode(rows: seq<ClientRow>)
    ensures rows == [] ==> MainCurrency(TalliesOf(rows)) == "USD"
    ensures rows != [] ==>
      var m := MainCurrency(TalliesOf(rows));
      var codes := Dedup(Currencies(rows));
      && m in Currencies(rows)
      && (forall k :: 0 <= k < |rows| ==> CountOf(rows, rows[k].currency) <= CountOf(rows, m))
      && exists i :: 0 <= i < |codes| && codes[i] == m &&
           forall j :: 0 <= j < i ==> CountOf(rows, codes[j]) < CountOf(rows, m)
  {
    if rows != [] {
      TalliesCorrect(rows);
      ModeOfCounts(TalliesOf(rows), rows);
    }
  }

  lemma ModeOfCounts(ts: seq<Tally>, rows: seq<ClientRow>)
    requires Counts(ts, rows) && rows != []
    ensures
      var m := MainCurrency(ts);
      var codes := Dedup(Currencies(rows));
      && m in Currencies(rows)
      && (forall k :: 0 <= k < |rows| ==> CountOf(rows, rows[k].currency) <= CountOf(rows, m))
      && exists i :: 0 <= i < |codes| && codes[i] == m &&
           forall j :: 0 <= j < i ==> CountOf(rows, codes[j]) < CountOf(rows, m)
  {
    var codes := Dedup(Currencies(rows));
    CountedCode(ts, rows, 0);
    var b := BestIndex(ts);
    var m := ts[b].currency;
    assert m == MainCurrency(ts);
    CodeOfEntry(ts, rows, b);
    forall k | 0 <= k < |rows| ensures CountOf(rows, rows[k].currency) <= CountOf(rows, m) {
      CountedCode(ts, rows, k);
    }
    forall j | 0 <= j < b ensures CountOf(rows, codes[j]) < CountOf(rows, m) {
      CodeOfEntry(ts, rows, j);
    }
  }

  /** Entry `j` is the `j`-th distinct currency and holds its row count. */
  lemma CodeOfEntry(ts: seq<Tally>, rows: seq<ClientRow>, j: nat)
    requires Counts(ts, rows) && j < |ts|
    ensures j < |Dedup(Currencies(rows))| && Dedup(Currencies(rows))[j] == ts[j].currency
    ensures ts[j].currency in Currencies(rows)
    ensures CountOf(rows, ts[j].currency) == ts[j].rows
  {
    assert Codes(ts)[j] == ts[j].currency;
  }

  /** Every row's currency has an entry. */
  lemma CountedCode(ts: seq<Tally>, rows: seq<ClientRow>, k: nat)
    requires Counts(ts, rows) && k < |rows|
    ensures exists j :: 0 <= j < |ts| && ts[j].currency == rows[k].currency
  {
    var d := Dedup(Currencies(rows));
    assert Currencies(rows)[k] == rows[k].currency;
    assert rows[k].currency in d;
    var j :| 0 <= j < |d| && d[j] == rows[k].currency;
    assert Codes(ts)[j] == ts[j].currency;
  }

  // ---------------------------------------------------------------------
  // Totals

  /** The record `analyzeClients` returns. */
  datatype Analysis = Analysis(
    totalClients: nat,
    totalLoan: real,
    totalOutstanding: real,
    overdueClientsCount: nat,
    overdueAmount: real,
    clientsWithRisk: seq<Aggregate>,
    mainCurrency: string)

  function LoanOf(c: Aggregate): real { c.stats.loanAmount }

  function OutstandingOf(c: Aggregate): real { c.stats.outstanding }

  /** `clients.reduce((sum, c) => sum + f(c), 0)`. */
  function SumBy(clients: seq<Aggregate>, f: Aggregate -> real): real
    decreases |clients|
  {
    if clients == [] then 0.0 else SumBy(clients[..|clients| - 1], f) + f(clients[|clients| - 1])
  }

  /** The predicate of `clients.filter(c => c.isOverdue && c.outstanding > 0)`. */
  predicate OverdueWithBalance(c: Aggregate) {
    c.stats.isOverdue && c.stats.outstanding > 0.0
  }

  predicate Flagged(c: Aggregate) {
    c.stats.isOverdue
  }

  predicate HasBalance(c: Aggregate) {
    c.stats.outstanding > 0.0
  }

  /** The totals computed from the final `clientMap`, `currencyCounts` and
      running loan total. */
  function Summarize(clients: seq<Aggregate>, tallies: seq<Tally>, totalLoan: real): Analysis {
    var overdue := Filter(clients, OverdueWithBalance);
    Analysis(
      |clients|,
      totalLoan,
      SumBy(clients, OutstandingOf),
      |overdue|,
      SumBy(overdue, OutstandingOf),
      Ranked(clients),
      MainCurrency(tallies))
  }

  /** What `analyzeClients` returns for the accepted rows. */
  function AnalysisOf(rows: seq<ClientRow>, today: int): Analysis {
    Summarize(Fold(rows, today), TalliesOf(rows), LoanSum(rows))
  }

  /** Replacing one element changes the sum by the difference. */
  lemma {:induction false} SumByUpdate(cs: seq<Aggregate>, k: nat, c: Aggregate, f: Aggregate -> real)
    requires k < |cs|
    ensures SumBy(cs[k := c], f) == SumBy(cs, f) - f(cs[k]) + f(c)
    decreases |cs|
  {
    var n := |cs| - 1;
    if k < n {
      SumByUpdate(cs[..n], k, c, f);
      assert cs[k := c][..n] == cs[..n][k := c];
    } else {
      assert cs[k := c][..n] == cs[..n];
    }
  }

  /** A fold step adds the row's loan and outstanding balance to the sums
      over the map. */
  lemma StepSums(cs: seq<Aggregate>, row: ClientRow, today: int)
    ensures SumBy(Step(cs, row, today), LoanOf) == SumBy(cs, LoanOf) + row.loanAmount
    ensures SumBy(Step(cs, row, today), OutstandingOf) == SumBy(cs, OutstandingOf) + Assess(row, today).outstanding
  {
    var k := IndexOf(cs, row.clientId);
    var base := if k < |cs| then cs else cs + [Seed(row)];
    if k == |cs| {
      assert base[..|cs|] == cs;
    }
    var c := base[k].(stats := Merge(base[k].stats, RowStats(row, today)));
    assert Step(cs, row, today) == base[k := c];
    SumByUpdate(base, k, c, LoanOf);
    SumByUpdate(base, k, c, OutstandingOf);
  }

  /** The loan and outstanding totals over the aggregates equal the sums
      over the accepted rows. */
  lemma {:induction false} FoldSums(rows: seq<ClientRow>, today: int)
    ensures SumBy(Fold(rows, today), LoanOf) == LoanSum(rows)
    ensures SumBy(Fold(rows, today), OutstandingOf) == OutstandingSum(rows, today)
    decreases |rows|
  {
    if rows != [] {
      var n := |rows| - 1;
      FoldSums(rows[..n], today);
      StepSums(Fold(rows[..n], today), rows[n], today);
    }
  }

  /** Every aggregate keeps the invariant of `Consistent`. */
  lemma FoldConsistent(rows: seq<ClientRow>, today: int)
    ensures forall k :: 0 <= k < |Fold(rows, today)| ==> Consistent(Fold(rows, today)[k].stats)
  {
    FoldCorrect(rows, today);
    forall k | 0 <= k < |Fold(rows, today)| ensures Consistent(Fold(rows, today)[k].stats) {
      TotalConsistent(RowsOf(rows, Fold(rows, today)[k].clientId), today);
    }
  }

  /** A sum of non-negative terms is non-negative and at least the sum of
      any filtered part. */
  lemma {:induction false} SumByFilter(cs: seq<Aggregate>, f: Aggregate -> real, p: Aggregate -> bool)
    requires forall k :: 0 <= k < |cs| ==> f(cs[k]) >= 0.0
    ensures 0.0 <= SumBy(Filter(cs, p), f) <= SumBy(cs, f)
    decreases |cs|
  {
    if cs != [] {
      SumByFilter(cs[..|cs| - 1], f, p);
    }
  }

  /** A sum of positive terms is positive exactly when there is a term. */
  lemma {:induction false} SumByPositive(cs: seq<Aggregate>, f: Aggregate -> real)
    requires forall k :: 0 <= k < |cs| ==> f(cs[k]) > 0.0
    ensures SumBy(cs, f) > 0.0 <==> cs != []
    ensures SumBy(cs, f) >= 0.0
    decreases |cs|
  {
    if cs != [] {
      SumByPositive(cs[..|cs| - 1], f);
    }
  }

  /** A sum of non-negative terms is zero only when every term is. */
  lemma {:induction false} SumByZero(cs: seq<Aggregate>, f: Aggregate -> real)
    requires forall k :: 0 <= k < |cs| ==> f(cs[k]) >= 0.0
    ensures SumBy(cs, f) == 0.0 ==> forall k :: 0 <= k < |cs| ==> f(cs[k]) == 0.0
    ensures SumBy(cs, f) >= 0.0
    decreases |cs|
  {
    if cs != [] {
      var n := |cs| - 1;
      SumByZero(cs[..n], f);
      assert forall k :: 0 <= k < n ==> cs[..n][k] == cs[k];
    }
  }

  /** The portfolio totals: one client per distinct accepted id; the loan
      total over the rows equals the sum of the aggregates' loans; the
      outstanding total is the sum of the per-row balances; the overdue
      amount lies between 0 and the outstanding total and is positive
      exactly when some client is overdue; no client is overdue when nothing
      is outstanding; and there are no more overdue clients than clients. */
  lemma AnalysisTotals(rows: seq<ClientRow>, today: int)
    ensures var a := AnalysisOf(rows, today);
      && a.totalClients == |set id | id in RowIds(rows)|
      && a.totalLoan == SumBy(Fold(rows, today), LoanOf)
      && a.totalOutstanding == OutstandingSum(rows, today)
      && 0.0 <= a.overdueAmount <= a.totalOutstanding
      && (a.overdueAmount > 0.0 <==> a.overdueClientsCount > 0)
      && (a.totalOutstanding == 0.0 ==> a.overdueClientsCount == 0)
      && a.overdueClientsCount <= a.totalClients
  {
    var cs := Fold(rows, today);
    var overdue := Filter(cs, OverdueWithBalance);
    FoldCorrect(rows, today);
    assert |cs| == |Ids(cs)|;
    DedupSize(RowIds(rows));
    FoldSums(rows, today);
    FoldConsistent(rows, today);
    SumByFilter(cs, OutstandingOf, OverdueWithBalance);
    SumByPositive(overdue, OutstandingOf);
    SumByZero(cs, OutstandingOf);
  }

  /** Because every aggregate is consistent, the overdue filter is the
      overdue flag alone, the ranking filter is a positive balance alone,
      and every ranked client is medium or high risk. */
  lemma AnalysisFilters(rows: seq<ClientRow>, today: int)
    ensures Filter(Fold(rows, today), OverdueWithBalance) == Filter(Fold(rows, today), Flagged)
    ensures WithBalance(Fold(rows, today)) == Filter(Fold(rows, today), HasBalance)
    ensures forall k :: 0 <= k < |AnalysisOf(rows, today).clientsWithRisk| ==>
              var c := AnalysisOf(rows, today).clientsWithRisk[k];
              c.stats.outstanding > 0.0 && c.stats.risk != Low
  {
    var cs := Fold(rows, today);
    FoldConsistent(rows, today);
    FilterCongruence(cs, OverdueWithBalance, Flagged);
    FilterCongruence(cs, HasBalanceOrOverdue, HasBalance);
    var ranked := AnalysisOf(rows, today).clientsWithRisk;
    forall k | 0 <= k < |ranked| ensures ranked[k].stats.outstanding > 0.0 && ranked[k].stats.risk != Low {
      RankedCorrect(cs, ranked[k], Low, 0.0);
      var j :| 0 <= j < |cs| && cs[j] == ranked[k];
    }
  }

  /** `analyzeClients`: one pass over the records that skips those without
      an id, classifies each row, adds it to the running totals and the
      currency counts, and folds it into its client's aggregate; then the
      totals are taken over the aggregates. */
  method AnalyzeClients(objs: seq<Csv.Record>, today: int, number: string -> Option<real>, date: string -> Option<int>)
    returns (analysis: Analysis)
    ensures analysis == AnalysisOf(Accepted(objs, number, date), today)
  {
    var totalLoan := 0.0;
    var totalPaid := 0.0;
    var clientMap: seq<Aggregate> := [];
    var currencyCounts: seq<Tally> := [];
    var i := 0;
    while i < |objs|
      invariant 0 <= i <= |objs|
      invariant clientMap == Fold(Accepted(objs[..i], number, date), today)
      invariant currencyCounts == TalliesOf(Accepted(objs[..i], number, date))
      invariant totalLoan == LoanSum(Accepted(objs[..i], number, date))
      invariant totalPaid == PaidSum(Accepted(objs[..i], number, date))
    {
      var loan', paid', map', counts' :=
        VisitRecord(objs[i], today, number, date, totalLoan, totalPaid, clientMap, currencyCounts);
      VisitAt(objs, i, today, number, date, totalLoan, totalPaid, clientMap, currencyCounts,
              loan', paid', map', counts');
      totalLoan, totalPaid, clientMap, currencyCounts := loan', paid', map', counts';
      i := i + 1;
    }
    assert objs[..i] == objs;
    analysis := Summarize(clientMap, currencyCounts, totalLoan);
  }

  /** The `forEach` callback for one record: skip it when it has no id,
      otherwise coerce and classify it and add it to the running totals,
      the currency counts and its client's aggregate. */
  method VisitRecord(r: Csv.Record, today: int, number: string -> Option<real>, date: string -> Option<int>,
                     totalLoan: real, totalPaid: real, clientMap: seq<Aggregate>, currencyCounts: seq<Tally>)
    returns (totalLoan': real, totalPaid': real, clientMap': seq<Aggregate>, currencyCounts': seq<Tally>)
    ensures Normalize(r, number, date).None? ==>
              totalLoan' == totalLoan && totalPaid' == totalPaid &&
              clientMap' == clientMap && currencyCounts' == currencyCounts
    ensures Normalize(r, number, date).Some? ==>
              var row := Normalize(r, number, date).value;
              && totalLoan' == totalLoan + row.loanAmount
              && totalPaid' == totalPaid + row.paidAmount
              && clientMap' == Step(clientMap, row, today)
              && currencyCounts' == Count(currencyCounts, row.currency)
  {
    totalLoan', totalPaid', clientMap', currencyCounts' := totalLoan, totalPaid, clientMap, currencyCounts;
    var id := OrElse(Field(r, "client_id"), Field(r, "client_name"));
    if id == [] {
      return;
    }
    var name := OrElse(Field(r, "client_name"), id);
    var country := OrElse(Field(r, "country"), "-");
    var currency := OrElse(Field(r, "currency"), "USD");
    var loanAmount := Amount(Field(r, "loan_amount"), number);
    var paid := Amount(Field(r, "amount_paid"), number);
    var dueDate := DateOf(Field(r, "due_date"), date);
    var lastPaymentDate := DateOf(Field(r, "last_payment_date"), date);
    var row := ClientRow(id, name, country, currency, loanAmount, paid, dueDate, lastPaymentDate);
    assert Normalize(r, number, date) == Some(row);
    var a := Assess(row, today);

    totalLoan' := totalLoan' + loanAmount;
    totalPaid' := totalPaid' + paid;

    var t := TallyIndex(currencyCounts', currency);
    if t < |currencyCounts'| {
      currencyCounts' := currencyCounts'[t := currencyCounts'[t].(rows := currencyCounts'[t].rows + 1)];
    } else {
      currencyCounts' := currencyCounts' + [Tally(currency, 1)];
    }

    clientMap' := AddToClient(clientMap', row, a, today);
  }

  /** One visited record carries the four running values over the records
      before `i` to those over the records before `i + 1`. */
  lemma VisitAt(objs: seq<Csv.Record>, i: nat, today: int, number: string -> Option<real>, date: string -> Option<int>,
                totalLoan: real, totalPaid: real, clientMap: seq<Aggregate>, currencyCounts: seq<Tally>,
                totalLoan': real, totalPaid': real, clientMap': seq<Aggregate>, currencyCounts': seq<Tally>)
    requires i < |objs|
    requires clientMap == Fold(Accepted(objs[..i], number, date), today)
    requires currencyCounts == TalliesOf(Accepted(objs[..i], number, date))
    requires totalLoan == LoanSum(Accepted(objs[..i], number, date))
    requires totalPaid == PaidSum(Accepted(objs[..i], number, date))
    requires Normalize(objs[i], number, date).None? ==>
               totalLoan' == totalLoan && totalPaid' == totalPaid &&
               clientMap' == clientMap && currencyCounts' == currencyCounts
    requires Normalize(objs[i], number, date).Some? ==>
               var row := Normalize(objs[i], number, date).value;
               && totalLoan' == totalLoan + row.loanAmount
               && totalPaid' == totalPaid + row.paidAmount
               && clientMap' == Step(clientMap, row, today)
               && currencyCounts' == Count(currencyCounts, row.currency)
    ensures clientMap' == Fold(Accepted(objs[..i + 1], number, date), today)
    ensures currencyCounts' == TalliesOf(Accepted(objs[..i + 1], number, date))
    ensures totalLoan' == LoanSum(Accepted(objs[..i + 1], number, date))
    ensures totalPaid' == PaidSum(Accepted(objs[..i + 1], number, date))
  {
    AcceptedSnoc(objs, i, number, date);
    VisitStep(Accepted(objs[..i], number, date), Accepted(objs[..i + 1], number, date),
              Normalize(objs[i], number, date), today,
              totalLoan, totalPaid, clientMap, currencyCounts, totalLoan', totalPaid', clientMap', currencyCounts');
  }

  /** One visited record carries the four running values over the accepted
      rows `rows` to those over `rows'`, which is `rows` with the coerced
      record appended when it is not skipped. */
  lemma VisitStep(rows: seq<ClientRow>, rows': seq<ClientRow>, r: Option<ClientRow>, today: int,
                  totalLoan: real, totalPaid: real, clientMap: seq<Aggregate>, currencyCounts: seq<Tally>,
                  totalLoan': real, totalPaid': real, clientMap': seq<Aggregate>, currencyCounts': seq<Tally>)
    requires r.None? ==> rows' == rows
    requires r.Some? ==> rows' == rows + [r.value]
    requires clientMap == Fold(rows, today) && currencyCounts == TalliesOf(rows)
    requires totalLoan == LoanSum(rows) && totalPaid == PaidSum(rows)
    requires r.None? ==>
               totalLoan' == totalLoan && totalPaid' == totalPaid &&
               clientMap' == clientMap && currencyCounts' == currencyCounts
    requires r.Some? ==>
               && totalLoan' == totalLoan + r.value.loanAmount
               && totalPaid' == totalPaid + r.value.paidAmount
               && clientMap' == Step(clientMap, r.value, today)
               && currencyCounts' == Count(currencyCounts, r.value.currency)
    ensures clientMap' == Fold(rows', today) && currencyCounts' == TalliesOf(rows')
    ensures totalLoan' == LoanSum(rows') && totalPaid' == PaidSum(rows')
  {
    if r.Some? {
      PassSnoc(rows, r.value, today);
    }
  }

  /** Records before `i + 1` are those before `i` and the `i`-th one. */
  lemma AcceptedSnoc(objs: seq<Csv.Record>, i: nat, number: string -> Option<real>, date: string -> Option<int>)
    requires i < |objs|
    ensures Accepted(objs[..i + 1], number, date) ==
            var r := Normalize(objs[i], number, date);
            if r.Some? then Accepted(objs[..i], number, date) + [r.value] else Accepted(objs[..i], number, date)
  {
    assert objs[..i + 1][..i] == objs[..i];
  }

  /** What one more accepted row does to the four running values. */
  lemma PassSnoc(rows: seq<ClientRow>, row: ClientRow, today: int)
    ensures Fold(rows + [row], today) == Step(Fold(rows, today), row, today)
    ensures TalliesOf(rows + [row]) == Count(TalliesOf(rows), row.currency)
    ensures LoanSum(rows + [row]) == LoanSum(rows) + row.loanAmount
    ensures PaidSum(rows + [row]) == PaidSum(rows) + row.paidAmount
  {
    assert (rows + [row])[..|rows|] == rows;
  }

  /** The body of the fold for one row (creating the entry when the id is
      new, then adding the row's figures `a` to it). */
  method AddToClient(clientMap: seq<Aggregate>, row: ClientRow, a: Assessment, today: int)
    returns (next: seq<Aggregate>)
    requires a == Assess(row, today)
    ensures next == Step(clientMap, row, today)
  {
    next := clientMap;
    var k := IndexOf(next, row.clientId);
    if k == |next| {
      next := next + [Seed(row)];
    }
    var agg := next[k].stats;
    agg := agg.(loanAmount := agg.loanAmount + row.loanAmount,
                paidAmount := agg.paidAmount + row.paidAmount,
                outstanding := agg.outstanding + a.outstanding);
    if a.daysOverdue > agg.maxDaysOverdue {
      agg := agg.(maxDaysOverdue := a.daysOverdue);
    }
    if a.isOverdue {
      agg := agg.(isOverdue := true);
    }
    if RiskRank(a.risk) > RiskRank(agg.risk) {
      agg := agg.(risk := a.risk);
    }
    if agg.latestDueDate.None? || (row.dueDate.Some? && row.dueDate.value > agg.latestDueDate.value) {
      agg := agg.(latestDueDate := row.dueDate);
    }
    next := next[k := next[k].(stats := agg)];
  }

  /** The upload handler after the file has been read: parse the lines,
      build the records, stop (the source alerts) when there are none, and
      analyse them otherwise. */
  method HandleUpload(text: string, today: int, number: string -> Option<real>, date: string -> Option<int>)
    returns (result: Option<Analysis>)
    ensures result.None? <==> Csv.ObjectsOf(Csv.Lines(text)) == []
    ensures result.Some? ==>
              result.value == AnalysisOf(Accepted(Csv.ObjectsOf(Csv.Lines(text)), number, date), today)
  {
    var rows := Csv.Lines(text);
    var clients := Csv.RowsToObjects(rows);
    if |clients| == 0 {
      return None;
    }
    var analysis := AnalyzeClients(clients, today, number, date);
    return Some(analysis);
  }
}
