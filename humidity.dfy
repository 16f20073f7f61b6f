/** Mixing-ratio derivation from the water-vapour volume mixing ratio
    VMR_VXL (ppmv), with the molar masses of water (18) and dry air (29).
    The scripts disagree on a trailing division by 1000, so both variants
    are kept, each as its own function. */
module Humidity {
  import opened Samples

  const WaterMolarMass: real := 18.0
  const DryAirMolarMass: real := 29.0

  /** `vmr * (18.0 / 29.0) / 1000.0`: mixing ratio in g/kg. NaN stays NaN. */
  function QGramsPerKg(vmr: Val): (q: Val)
    ensures q.Missing? <==> vmr.Missing?
    ensures vmr.Num? ==> q.r * 29000.0 == vmr.r * 18.0
  {
    match vmr
    case Missing => Missing
    case Num(x) => Num(x * (WaterMolarMass / DryAirMolarMass) / 1000.0)
  }

  /** `vmr * (18.0 / 29.0)`: the same ratio without the division by 1000. */
  function QRatio(vmr: Val): (q: Val)
    ensures q.Missing? <==> vmr.Missing?
    ensures vmr.Num? ==> q.r * 29.0 == vmr.r * 18.0
  {
    match vmr
    case Missing => Missing
    case Num(x) => Num(x * (WaterMolarMass / DryAirMolarMass))
  }

  /** The two variants differ by exactly the factor 1000. */
  lemma VariantsDifferByThousand(vmr: Val)
    requires vmr.Num?
    ensures QRatio(vmr).r == 1000.0 * QGramsPerKg(vmr).r
  {
  }

  /** Both conversions map 0 to 0 and are linear: q(a*x + b*y) = a*q(x) + b*q(y). */
  lemma QLinear(a: real, x: real, b: real, y: real)
    ensures QGramsPerKg(Num(0.0)) == Num(0.0) && QRatio(Num(0.0)) == Num(0.0)
    ensures QGramsPerKg(Num(a * x + b * y)).r == a * QGramsPerKg(Num(x)).r + b * QGramsPerKg(Num(y)).r
    ensures QRatio(Num(a * x + b * y)).r == a * QRatio(Num(x)).r + b * QRatio(Num(y)).r
  {
  }

  /** Scenario: 1000 ppmv is 18/29 g/kg, about 0.6207. */
  lemma ThousandPpmv()
    ensures QGramsPerKg(Num(1000.0)) == Num(18.0 / 29.0)
    ensures 0.6206 < 18.0 / 29.0 < 0.6207
  {
  }

  /** Elementwise conversion of a one-dimensional channel. */
  function QGramsPerKgSeq(vmr: seq<Val>): (q: seq<Val>)
    ensures |q| == |vmr|
    ensures forall i :: 0 <= i < |vmr| ==> q[i] == QGramsPerKg(vmr[i])
  {
    MapVals(QGramsPerKg, vmr)
  }

  function QRatioSeq(vmr: seq<Val>): (q: seq<Val>)
    ensures |q| == |vmr|
    ensures forall i :: 0 <= i < |vmr| ==> q[i] == QRatio(vmr[i])
  {
    MapVals(QRatio, vmr)
  }
}
