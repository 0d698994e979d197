/** Per-row overdue and risk classification of the loan analyser
    (script.js, inside `analyzeClients`). */
module Classification {
  import opened Wrappers

  /** Risk tiers, ordered low < medium < high by `RiskRank`. */
  datatype Risk = Low | Medium | High

  /** The `riskRank` table: low 1, medium 2, high 3. */
  function RiskRank(r: Risk): (n: nat)
    ensures 1 <= n <= 3
  {
    match r
    case Low => 1
    case Medium => 2
    case High => 3
  }

  /** The monotone upgrade: `candidate` replaces `current` only when its
      rank is strictly greater, so the result is the higher of the two. */
  function Upgrade(current: Risk, candidate: Risk): (r: Risk)
    ensures r == current || r == candidate
    ensures RiskRank(r) >= RiskRank(current) && RiskRank(r) >= RiskRank(candidate)
  {
    if RiskRank(candidate) > RiskRank(current) then candidate else current
  }

  /** Milliseconds in a day (`1000 * 60 * 60 * 24`). */
  const MsPerDay: int := 1000 * 60 * 60 * 24

  /** Outstanding balance above which a row is high risk whatever its dates. */
  const HighOutstanding: real := 25000.0

  /** Days overdue above which an overdue row is high risk. */
  const HighDaysOverdue: int := 30

  /** One accepted CSV data row after field coercion. Amounts are the values
      `parseFloat` gave (0 when it gave nothing); dates are instants in
      milliseconds, `None` when the field was empty or unparseable. */
  datatype ClientRow = ClientRow(
    clientId: string,
    clientName: string,
    country: string,
    currency: string,
    loanAmount: real,
    paidAmount: real,
    dueDate: Option<int>,
    lastPaymentDate: Option<int>)

  /** What the analyser derives for one row against the reference instant. */
  datatype Assessment = Assessment(outstanding: real, daysOverdue: nat, isOverdue: bool, risk: Risk)

  /** The risk tier policy applied to a single row. */
  function Classify(outstanding: real, isOverdue: bool, daysOverdue: int): Risk {
    if (isOverdue && daysOverdue > HighDaysOverdue) || outstanding > HighOutstanding then High
    else if outstanding > 0.0 || isOverdue then Medium
    else Low
  }

  /** Outstanding balance, days overdue, overdue flag and risk of one row,
      with `today` the single reference instant of the run. */
  function Assess(row: ClientRow, today: int): (a: Assessment)
    ensures a.outstanding >= 0.0
    ensures a.isOverdue <==> a.daysOverdue >= 1
    ensures a.isOverdue ==> a.outstanding > 0.0
    ensures a.risk == Low <==> a.outstanding == 0.0
  {
    var outstanding := if row.loanAmount - row.paidAmount > 0.0 then row.loanAmount - row.paidAmount else 0.0;
    var elapsed: int :=
      if row.dueDate.Some? && outstanding > 0.0 && today > row.dueDate.value
      then (today - row.dueDate.value) / MsPerDay
      else 0;
    var days: nat := if elapsed < 0 then 0 else elapsed;
    var isOverdue := days > 0;
    Assessment(outstanding, days, isOverdue, Classify(outstanding, isOverdue, days))
  }

  /** The row's figures stated in terms of its inputs:
      the outstanding balance is `max(loan - paid, 0)`; a row is overdue
      exactly when it has a due date, a positive balance and at least one
      whole day has passed since the due date; days overdue is then the
      number of whole days elapsed and is zero otherwise; and the tiers are
      high for more than 30 days overdue or a balance above 25000, medium for
      any other positive balance, low for none. */
  lemma AssessCharacterization(row: ClientRow, today: int)
    ensures var a := Assess(row, today);
      && a.outstanding >= row.loanAmount - row.paidAmount
      && (a.outstanding == 0.0 || a.outstanding == row.loanAmount - row.paidAmount)
      && (a.daysOverdue != 0 ==>
            && row.dueDate.Some? && a.outstanding > 0.0 && today > row.dueDate.value
            && a.daysOverdue * MsPerDay <= today - row.dueDate.value < (a.daysOverdue + 1) * MsPerDay)
      && (a.isOverdue <==>
            row.dueDate.Some? && a.outstanding > 0.0 && today - row.dueDate.value >= MsPerDay)
      && (a.risk == High <==>
            (a.isOverdue && today - row.dueDate.value >= (HighDaysOverdue + 1) * MsPerDay)
            || a.outstanding > HighOutstanding)
      && (a.risk == Medium <==>
            0.0 < a.outstanding <= HighOutstanding && a.daysOverdue <= HighDaysOverdue)
  {
    var a := Assess(row, today);
    if row.dueDate.Some? && a.outstanding > 0.0 && today > row.dueDate.value {
      var diff := today - row.dueDate.value;
      var d := diff / MsPerDay;
      assert a.daysOverdue == d;
      assert d * MsPerDay <= diff < (d + 1) * MsPerDay;
      assert d >= 1 <==> diff >= MsPerDay;
      assert d > HighDaysOverdue <==> diff >= (HighDaysOverdue + 1) * MsPerDay;
    }
  }

  /** The two date boundaries: on the due date itself a row is not overdue;
      one day later it is one day overdue. */
  lemma OverdueBoundary(row: ClientRow, today: int)
    requires row.loanAmount > row.paidAmount && row.dueDate.Some?
    ensures row.dueDate.value == today ==> !Assess(row, today).isOverdue
    ensures row.dueDate.value == today - MsPerDay ==>
              Assess(row, today).isOverdue && Assess(row, today).daysOverdue == 1
  {
  }

  /** The balance threshold is strict: 25001 outstanding and not overdue is
      high, 25000 is only medium. */
  lemma HighThresholdIsStrict(row: ClientRow, today: int)
    requires row.dueDate.None? && row.paidAmount == 0.0
    ensures row.loanAmount == 25001.0 ==> Assess(row, today).risk == High
    ensures row.loanAmount == 25000.0 ==> Assess(row, today).risk == Medium
  {
  }
}
