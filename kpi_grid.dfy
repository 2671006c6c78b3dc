/**
 * The KPI grid: a fixed list of five cards, each reading one field of the
 * summary and formatting it; while loading, every card shows placeholders
 * and no formatter runs.
 */
module KpiGrid {
  import opened JsText

  datatype MakeCount = MakeCount(make: string, count: int)

  /** The summary fields the grid reads. */
  datatype Summary = Summary(
    total: int,
    bevCount: int,
    phevCount: int,
    avgElectricRange: int,
    topMakes: seq<MakeCount>)

  datatype SummaryKey = Total | BevCount | PhevCount | AvgElectricRange | TopMakes

  datatype Card = Card(key: SummaryKey, title: string)

  /** The cards, in display order. */
  const KpiCards: seq<Card> := [
    Card(Total, "Total vehicles"),
    Card(BevCount, "Battery electric (BEV)"),
    Card(PhevCount, "Plug-in hybrid (PHEV)"),
    Card(AvgElectricRange, "Avg electric range (mi)"),
    Card(TopMakes, "Top make")
  ]

  /**
   * `toLocaleString()` of an integer. The model renders the plain decimal
   * form; what the grid relies on holds in any locale: the text is never
   * empty and never the placeholder dash.
   */
  function Show(n: int): (r: string)
    ensures r != "" && r != Dash
  {
    IntToString(n)
  }

  /** The average range as shown: the number when it is positive, a dash otherwise. */
  function FormatAvgRange(s: Summary): (r: string)
    ensures r == Dash <==> s.avgElectricRange <= 0
    ensures s.avgElectricRange > 0 ==> Number(r) == Finite(s.avgElectricRange)
  {
    if s.avgElectricRange > 0 then
      NumberOfNumberToString(Finite(s.avgElectricRange));
      IntToString(s.avgElectricRange)
    else Dash
  }

  /** The top make as shown: the make of the first entry, or a dash when there is none. */
  function FormatTopMake(s: Summary): (r: string)
    ensures |s.topMakes| > 0 ==> r == s.topMakes[0].make
    ensures |s.topMakes| == 0 ==> r == Dash
  {
    if |s.topMakes| > 0 then s.topMakes[0].make else Dash
  }

  /** Each card's `format`. */
  function Format(key: SummaryKey, s: Summary): (r: string)
    ensures key == AvgElectricRange ==> (r == Dash <==> s.avgElectricRange <= 0)
    ensures key == TopMakes && |s.topMakes| > 0 ==> r == s.topMakes[0].make
    ensures key == TopMakes && |s.topMakes| == 0 ==> r == Dash
    ensures key in {Total, BevCount, PhevCount} ==> r != Dash
  {
    match key
    case Total => Show(s.total)
    case BevCount => Show(s.bevCount)
    case PhevCount => Show(s.phevCount)
    case AvgElectricRange => FormatAvgRange(s)
    case TopMakes => FormatTopMake(s)
  }

  datatype CardView = Placeholder | Shown(title: string, value: string)

  /** The grid: one view per card, in card order. */
  function Render(s: Summary, loading: bool): (views: seq<CardView>)
    ensures |views| == |KpiCards|
    ensures loading ==> forall i :: 0 <= i < |views| ==> views[i] == Placeholder
    ensures !loading ==> forall i :: 0 <= i < |views| ==>
      views[i] == Shown(KpiCards[i].title, Format(KpiCards[i].key, s))
  {
    seq(|KpiCards|, i requires 0 <= i < |KpiCards| =>
      if loading then Placeholder else Shown(KpiCards[i].title, Format(KpiCards[i].key, s)))
  }

  /** Five cards: total, BEV count, PHEV count, average range, top make. */
  lemma CardOrder()
    ensures |KpiCards| == 5
    ensures seq(5, i requires 0 <= i < 5 => KpiCards[i].key) == [Total, BevCount, PhevCount, AvgElectricRange, TopMakes]
  {
  }

  /** The labels, used as React keys, are pairwise distinct. */
  lemma LabelsDistinct()
    ensures forall i, j :: 0 <= i < j < |KpiCards| ==> KpiCards[i].title != KpiCards[j].title
  {
  }

  /** The average-range card shows a number exactly when the average is positive. */
  lemma AvgCardShowsNumberIffPositive(s: Summary)
    ensures Format(AvgElectricRange, s) != Dash <==> s.avgElectricRange > 0
    ensures Render(s, false)[3] == Shown("Avg electric range (mi)", FormatAvgRange(s))
  {
  }

  /**
   * Each count card shows its own summary field through the number
   * formatter, so two summaries that agree on that field show the same text.
   */
  lemma CountCardsShowTheirFields(s: Summary, t: Summary)
    ensures Format(Total, s) == Show(s.total)
    ensures Format(BevCount, s) == Show(s.bevCount)
    ensures Format(PhevCount, s) == Show(s.phevCount)
    ensures s.total == t.total ==> Format(Total, s) == Format(Total, t)
    ensures s.bevCount == t.bevCount ==> Format(BevCount, s) == Format(BevCount, t)
    ensures s.phevCount == t.phevCount ==> Format(PhevCount, s) == Format(PhevCount, t)
  {
  }

  /** The top-make card falls back to a dash exactly when there is no top make. */
  lemma TopMakeCard(s: Summary)
    ensures Render(s, false)[4] == Shown("Top make", FormatTopMake(s))
    ensures |s.topMakes| > 0 ==> Format(TopMakes, s) == s.topMakes[0].make
    ensures |s.topMakes| == 0 ==> Format(TopMakes, s) == Dash
  {
  }
}
