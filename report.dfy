/**
 * The decisions the report layer takes from the classified rows: the row highlight
 * (app.py:163-169, 329-338), the carrier-level percentages (app.py:267-271) and the
 * strategy tier of the summary text (app.py:206-211).
 */
module Report {
  import opened Records
  import opened Classifier
  import opened Aggregate

  datatype Highlight = Green | Yellow | NoHighlight

  /** Green when both columns read "Cross-Sold", yellow when one of them does, none otherwise. */
  function HighlightOf(r: ClassifiedRow): Highlight {
    if Label(r.accountType) == "Cross-Sold" && Label(r.carrierType) == "Cross-Sold" then Green
    else if Label(r.accountType) == "Cross-Sold" || Label(r.carrierType) == "Cross-Sold" then Yellow
    else NoHighlight
  }

  /** The cell style `highlight_cross` gives each highlight on screen. */
  function StyleOf(h: Highlight): string {
    match h
    case Green => "background-color: lightgreen"
    case Yellow => "background-color: khaki"
    case NoHighlight => ""
  }

  /** `highlight_cross(row)`: one style per cell of the row, all the same. */
  function HighlightCross(r: ClassifiedRow, width: nat): (styles: seq<string>)
    ensures |styles| == width
    ensures forall k :: 0 <= k < width ==> styles[k] == StyleOf(HighlightOf(r))
  {
    seq(width, k => StyleOf(HighlightOf(r)))
  }

  /** Green, yellow and none partition the four combinations of the two types. */
  lemma HighlightCases(r: ClassifiedRow)
    ensures HighlightOf(r) == Green <==> r.accountType == CrossSold && r.carrierType == CrossSold
    ensures HighlightOf(r) == Yellow <==> (r.accountType == CrossSold) != (r.carrierType == CrossSold)
    ensures HighlightOf(r) == NoHighlight <==> r.accountType == Monoline && r.carrierType == Monoline
  {
    LabelCrossSoldIff(r.accountType);
    LabelCrossSoldIff(r.carrierType);
  }

  /** On the classifier's rows, yellow means cross-sold at agency level only, as the PDF legend says. */
  lemma YellowMeansAgencyOnly(filtered: seq<Row>, k: int)
    requires 0 <= k < |filtered|
    ensures HighlightOf(Classify(filtered)[k]) == Yellow
        <==> AgencyType(filtered, filtered[k].customer) == CrossSold
             && CarrierType(filtered, filtered[k].customer) == Monoline
  {
    HighlightCases(Classify(filtered)[k]);
  }

  /** The loop at app.py:329-338: one highlight per row of the division, in row order. */
  method HighlightRows(rows: seq<ClassifiedRow>) returns (highlights: seq<Highlight>)
    ensures |highlights| == |rows|
    ensures forall k :: 0 <= k < |rows| ==> highlights[k] == HighlightOf(rows[k])
  {
    highlights := [];
    var i := 0;
    while i < |rows|
      invariant 0 <= i <= |rows|
      invariant |highlights| == i
      invariant forall k :: 0 <= k < i ==> highlights[k] == HighlightOf(rows[k])
    {
      var r := rows[i];
      if Label(r.accountType) == "Cross-Sold" && Label(r.carrierType) == "Cross-Sold" {
        highlights := highlights + [Green];
      } else if Label(r.accountType) == "Cross-Sold" || Label(r.carrierType) == "Cross-Sold" {
        highlights := highlights + [Yellow];
      } else {
        highlights := highlights + [NoHighlight];
      }
      i := i + 1;
    }
  }

  /** The carrier column of the account mix table: both percentages, 0.0 when there are no clients. */
  function CarrierPercentages(c: Counts): (pcts: (real, real)) {
    (Percent(c.totalCarrierMono, c.totalClients), Percent(c.totalCarrierCross, c.totalClients))
  }

  /** For a selected division the carrier percentages lie in [0, 100] and add to 100. */
  lemma CarrierPercentagesSum(rows: seq<ClassifiedRow>, d: string)
    requires SelectDivision(rows, d).Selected?
    ensures var p := CarrierPercentages(SelectDivision(rows, d).counts);
            && 0.0 <= p.0 <= 100.0 && 0.0 <= p.1 <= 100.0
            && p.0 + p.1 == 100.0
  {
    var c := SelectDivision(rows, d).counts;
    CustomerCountsPartition(DivisionRows(rows, d));
    PercentBounds(c.totalCarrierMono, c.totalCarrierCross, c.totalClients);
    PercentBounds(c.totalCarrierCross, c.totalCarrierMono, c.totalClients);
  }

  /** The three closing sentences of the summary text. */
  datatype Tier = SignificantOpportunity | RoomToImprove | EffectiveCrossSelling

  function StrategyTier(pctCrossSold: real): Tier {
    if pctCrossSold < 20.0 then SignificantOpportunity
    else if pctCrossSold < 50.0 then RoomToImprove
    else EffectiveCrossSelling
  }

  function Rank(t: Tier): nat {
    match t
    case SignificantOpportunity => 0
    case RoomToImprove => 1
    case EffectiveCrossSelling => 2
  }

  /** A higher cross-sold percentage never gives a lower tier. */
  lemma TierMonotone(p: real, q: real)
    requires p <= q
    ensures Rank(StrategyTier(p)) <= Rank(StrategyTier(q))
  {
  }

  /**
   * The tier the summary text picks, from the as-written `% Cross-Sold` of the division's
   * summary row: that value is at most 100 but negative whenever the division has more
   * monoline rows than clients, and every such value picks the lowest tier.
   */
  lemma TierOfSummaryAsWritten(rows: seq<ClassifiedRow>, d: string)
    requires d in Divisions(rows)
    ensures var s := SummaryAsWritten(rows, d);
            && s.pctCrossSold <= 100.0
            && (StrategyTier(s.pctCrossSold) == SignificantOpportunity <==> s.pctCrossSold < 20.0)
            && (StrategyTier(s.pctCrossSold) == EffectiveCrossSelling <==> 50.0 <= s.pctCrossSold)
            && (s.monoline > s.totalClients ==> s.pctCrossSold < 0.0 && StrategyTier(s.pctCrossSold) == SignificantOpportunity)
  {
    var dr := DivisionRows(rows, d);
    SummaryAsWrittenBalance(rows, d);
    AsWrittenOf(rows, d, |Clients(dr)|, CountRows(dr, Monoline), CountRows(dr, CrossSold));
    ShareBounds(CountRows(dr, Monoline), |Clients(dr)|);
  }

  /**
   * Row counting changes the closing sentence: the mixed division (one cross-sold client
   * with two rows, one monoline client with two rows) gets the lowest tier as written but
   * the highest when counted per customer.
   */
  lemma MixedDivisionTiers()
    ensures "North" in Divisions(Classify(MixedRaw()))
    ensures StrategyTier(SummaryAsWritten(Classify(MixedRaw()), "North").pctCrossSold) == SignificantOpportunity
    ensures StrategyTier(Summary(Classify(MixedRaw()), "North").pctCrossSold) == EffectiveCrossSelling
  {
    MixedClassified();
    MixedAsWritten();
    MixedPerCustomer();
  }

  /** The tier of a per-customer summary, whose percentage lies in [0, 100]. */
  lemma TierOfSummary(rows: seq<ClassifiedRow>, d: string)
    ensures var s := Summary(rows, d);
            (StrategyTier(s.pctCrossSold) == SignificantOpportunity <==> s.pctCrossSold < 20.0)
            && (StrategyTier(s.pctCrossSold) == EffectiveCrossSelling <==> 50.0 <= s.pctCrossSold <= 100.0)
  {
    SummaryConsistent(rows, d);
  }
}
