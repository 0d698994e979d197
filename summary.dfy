/** The overdue percentage and the risk-tier sentence chosen by
    `renderSummary`. */
module Summary {
  import opened Classification
  import opened Aggregation
  import opened Portfolio

  /** `Math.round(count / total * 100)`, or 0 when there are no clients.
      Rounding half up of `100 * count / total` is the floor of
      `(200 * count + total) / (2 * total)`. */
  function OverduePct(count: nat, total: nat): (pct: nat)
    ensures total > 0 ==> 200 * count - total < 2 * total * pct <= 200 * count + total
    ensures total == 0 ==> pct == 0
  {
    if total == 0 then 0 else (200 * count + total) / (2 * total)
  }

  /** The percentage never exceeds 100 when the count is a part of the
      total, and reaches the 30 % threshold exactly when
      `200 * count >= 59 * total`. */
  lemma OverduePctRange(count: nat, total: nat)
    requires count <= total
    ensures OverduePct(count, total) <= 100
    ensures total > 0 ==> (OverduePct(count, total) >= 30 <==> 200 * count >= 59 * total)
  {
    if total > 0 {
      var p := OverduePct(count, total);
      var m := 2 * total;
      if p >= 101 {
        Scale(m, 101, p);
        assert false;
      }
      if 200 * count >= 59 * total && p <= 29 {
        Scale(m, p, 29);
        assert false;
      }
      if 200 * count < 59 * total && p >= 30 {
        Scale(m, 30, p);
        assert false;
      }
    }
  }

  lemma Scale(m: nat, a: int, b: int)
    requires a <= b
    ensures m * a <= m * b
  {
    assert m * b - m * a == m * (b - a);
  }

  /** The closing sentence of the summary. */
  datatype Tier = VeryLowRisk | ConcentratedRisk | SomeOverdue | NoTier

  /** The branch of `renderSummary` that picks the closing sentence. */
  function TierOf(a: Analysis): Tier {
    var pct := OverduePct(a.overdueClientsCount, a.totalClients);
    if a.overdueClientsCount == 0 && a.totalOutstanding == 0.0 then VeryLowRisk
    else if a.overdueAmount > 0.0 && pct >= 30 then ConcentratedRisk
    else if a.overdueAmount > 0.0 then SomeOverdue
    else NoTier
  }

  /** For an analysis of accepted rows the tiers reduce to conditions on the
      counts: "very low risk" exactly when nothing is outstanding,
      "concentrated" exactly when some client is overdue and at least 29.5 %
      of clients are, "some overdue" when some but fewer are, and no tier
      sentence exactly when money is outstanding but no client is overdue. */
  lemma TierOfAnalysis(rows: seq<ClientRow>, today: int)
    ensures var a := AnalysisOf(rows, today);
      var c, t := a.overdueClientsCount, a.totalClients;
      && (TierOf(a) == VeryLowRisk <==> a.totalOutstanding == 0.0)
      && (TierOf(a) == ConcentratedRisk <==> c > 0 && 200 * c >= 59 * t)
      && (TierOf(a) == SomeOverdue <==> c > 0 && 200 * c < 59 * t)
      && (TierOf(a) == NoTier <==> c == 0 && a.totalOutstanding > 0.0)
  {
    var a := AnalysisOf(rows, today);
    AnalysisTotals(rows, today);
    OverduePctRange(a.overdueClientsCount, a.totalClients);
  }
}
