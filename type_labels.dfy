/**
 * The keyword classifier that both the vehicle table and the vehicle-type pie
 * use to shorten an electric-vehicle type: "Battery Electric" wins over
 * "Plug-in Hybrid", and any other type is cut to a component-specific width.
 */
module TypeLabels {
  import opened JsText

  const BatteryElectric: string := "Battery Electric"
  const PlugInHybrid: string := "Plug-in Hybrid"

  predicate IsBev(vehicleType: string) { Includes(vehicleType, BatteryElectric) }

  predicate IsPhev(vehicleType: string) { Includes(vehicleType, PlugInHybrid) }

  /** The shared body of `typeShort` and `shortLabel`, `width` being the cut-off. */
  function Abbreviate(vehicleType: string, width: nat): (r: string)
    ensures r == "BEV" || r == "PHEV" || (|r| <= width && |r| <= |vehicleType| && r == vehicleType[..|r|])
    ensures IsBev(vehicleType) || IsPhev(vehicleType) || |r| == Min(width, |vehicleType|)
  {
    if IsBev(vehicleType) then "BEV"
    else if IsPhev(vehicleType) then "PHEV"
    else Slice(vehicleType, 0, width)
  }

  /** What an abbreviation is, whatever the width: a keyword label or a prefix of the type. */
  lemma AbbreviateCases(vehicleType: string, width: nat)
    ensures IsBev(vehicleType) ==> Abbreviate(vehicleType, width) == "BEV"
    ensures !IsBev(vehicleType) && IsPhev(vehicleType) ==> Abbreviate(vehicleType, width) == "PHEV"
    ensures !IsBev(vehicleType) && !IsPhev(vehicleType) ==>
      Abbreviate(vehicleType, width) == vehicleType[..Min(width, |vehicleType|)]
  {
  }

  /** A narrower abbreviation of the same type is a prefix of a wider one. */
  lemma {:induction false} NarrowerIsPrefix(vehicleType: string, narrow: nat, wide: nat)
    requires narrow <= wide
    ensures var n, w := Abbreviate(vehicleType, narrow), Abbreviate(vehicleType, wide);
      |n| <= |w| && w[..|n|] == n
  {
    AbbreviateCases(vehicleType, narrow);
    AbbreviateCases(vehicleType, wide);
  }
}
