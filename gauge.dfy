/** The risk gauge's colour and label (src/components/RiskScoreGauge.tsx).
    The score is a JavaScript number, modelled as a real; two thresholds,
    30 and 70, split it into three bands. */
module RiskScoreGauge {

  const Emerald := "#10b981"
  const Amber := "#f59e0b"
  const Rose := "#ef4444"

  /** The band colours and labels, lowest band first. */
  const BandColors: seq<string> := [Emerald, Amber, Rose]
  const BandLabels: seq<string> := ["Safe", "Caution", "High Risk"]

  /** How many of the two thresholds the score has reached. */
  function Band(s: real): (b: nat)
    ensures b < 3
  {
    (if 30.0 <= s then 1 else 0) + (if 70.0 <= s then 1 else 0)
  }

  /** `getColor`: the colour of the score's band. */
  function GetColor(s: real): (color: string)
    ensures color == BandColors[Band(s)]
  {
    if s < 30.0 then Emerald
    else if s < 70.0 then Amber
    else Rose
  }

  /** `getLabel`: the label of the score's band. */
  function GetLabel(s: real): (name: string)
    ensures name == BandLabels[Band(s)]
  {
    if s < 30.0 then "Safe"
    else if s < 70.0 then "Caution"
    else "High Risk"
  }

  /** The three bands with their exact boundaries. */
  lemma BandBoundaries(s: real)
    ensures s < 30.0 ==> GetColor(s) == "#10b981" && GetLabel(s) == "Safe"
    ensures 30.0 <= s < 70.0 ==> GetColor(s) == "#f59e0b" && GetLabel(s) == "Caution"
    ensures 70.0 <= s ==> GetColor(s) == "#ef4444" && GetLabel(s) == "High Risk"
  {
  }

  /** A higher score never falls in a lower band. */
  lemma BandMonotone(s: real, t: real)
    requires s <= t
    ensures Band(s) <= Band(t)
  {
  }

  /** Colour and label always come from the same band: two scores share a
      colour exactly when they share a label. */
  lemma ColorAgreesWithLabel(s: real, t: real)
    ensures GetColor(s) == GetColor(t) <==> GetLabel(s) == GetLabel(t)
  {
  }

  /** The colours the gauge draws with: the arc's stroke and the label's text. */
  datatype GaugeView = GaugeView(arcStroke: string, labelColor: string, labelText: string)

  /** The arc and the label are both coloured with `getColor(score)`. */
  function Gauge(score: real): (g: GaugeView)
    ensures g.arcStroke == g.labelColor == BandColors[Band(score)]
    ensures g.labelText == BandLabels[Band(score)]
  {
    GaugeView(GetColor(score), GetColor(score), GetLabel(score))
  }
}
