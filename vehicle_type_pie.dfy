/**
 * The vehicle-type pie: each type count becomes a chart row labelled with a
 * keyword abbreviation of at most 12 characters, and slice colours cycle
 * through three fixed colours by position.
 */
module VehicleTypePie {
  import opened JsText
  import TypeLabels

  datatype TypeCount = TypeCount(typeName: string, count: int)

  /** A chart entry: the short `name`, the `value` and the full type as `fullName`. */
  datatype ChartRow = ChartRow(name: string, value: int, fullName: string)

  const Colors: seq<string> := ["#2e7d32", "#1565c0", "#757575"]

  /** `shortLabel`: "BEV", "PHEV", or at most the first 12 characters of the type. */
  function ShortLabel(vehicleType: string): (r: string)
    ensures |r| <= 12
    ensures TypeLabels.IsBev(vehicleType) ==> r == "BEV"
    ensures !TypeLabels.IsBev(vehicleType) && TypeLabels.IsPhev(vehicleType) ==> r == "PHEV"
    ensures !TypeLabels.IsBev(vehicleType) && !TypeLabels.IsPhev(vehicleType) ==>
      r == vehicleType[..Min(12, |vehicleType|)]
  {
    TypeLabels.AbbreviateCases(vehicleType, 12);
    TypeLabels.Abbreviate(vehicleType, 12)
  }

  /** `chartData`: one row per type count, same order. */
  function ChartData(data: seq<TypeCount>): (rows: seq<ChartRow>)
    ensures |rows| == |data|
  {
    seq(|data|, i requires 0 <= i < |data| =>
      ChartRow(ShortLabel(data[i].typeName), data[i].count, data[i].typeName))
  }

  /** The type counts a chart's rows carry in `fullName` and `value`. */
  function Unproject(rows: seq<ChartRow>): (data: seq<TypeCount>)
    ensures |data| == |rows|
  {
    if rows == [] then [] else [TypeCount(rows[0].fullName, rows[0].value)] + Unproject(rows[1..])
  }

  /** The projection loses nothing but the label: the type counts can be read back from the rows. */
  lemma {:induction false} ChartDataLossless(data: seq<TypeCount>)
    ensures Unproject(ChartData(data)) == data
  {
    if data != [] {
      ChartDataLossless(data[1..]);
      assert ChartData(data)[1..] == ChartData(data[1..]);
    }
  }

  /** Each row is labelled with the short label of its own type. */
  lemma ChartRowLabels(data: seq<TypeCount>, i: nat)
    requires i < |data|
    ensures ChartData(data)[i].name == ShortLabel(data[i].typeName)
    ensures ChartData(data)[i].fullName == data[i].typeName && ChartData(data)[i].value == data[i].count
  {
  }

  /** The colour of slice `i`. */
  function SliceColor(i: nat): (c: string)
    ensures c in Colors
    ensures i < |Colors| ==> c == Colors[i]
  {
    Colors[i % |Colors|]
  }

  datatype PieView = Skeleton | NoData | Pie(rows: seq<ChartRow>, fills: seq<string>)

  /** The card's content: the skeleton while loading, "No data" for no counts, else the pie. */
  function Render(data: seq<TypeCount>, loading: bool): (v: PieView)
    ensures loading ==> v == Skeleton
    ensures !loading && data == [] ==> v == NoData
    ensures !loading && data != [] ==> && v.Pie? && v.rows == ChartData(data) && |v.fills| == |data|
                                       && forall i :: 0 <= i < |data| ==> v.fills[i] == SliceColor(i)
  {
    var rows := ChartData(data);
    if loading then Skeleton
    else if |rows| == 0 then NoData
    else Pie(rows, seq(|rows|, i requires 0 <= i < |rows| => SliceColor(i)))
  }

  /** Once loaded, the "No data" message appears exactly when there are no type counts. */
  lemma NoDataIffEmpty(data: seq<TypeCount>)
    ensures Render(data, false) == NoData <==> data == []
    ensures data != [] ==> Render(data, false).Pie? && Render(data, false).rows == ChartData(data)
  {
  }

  /** Slice colours repeat with period three, and neighbouring slices never share a colour. */
  lemma ColorsCycle(i: nat)
    ensures SliceColor(i + 3) == SliceColor(i)
    ensures SliceColor(i + 1) != SliceColor(i)
  {
  }

  /** The pie's label is a prefix of the table's label for the same type. */
  lemma PieLabelIsPrefixOfTableLabel(vehicleType: string)
    ensures var pie, table := ShortLabel(vehicleType), TypeLabels.Abbreviate(vehicleType, 15);
      |pie| <= |table| && table[..|pie|] == pie
  {
    TypeLabels.NarrowerIsPrefix(vehicleType, 12, 15);
  }
}
