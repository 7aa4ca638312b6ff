/**
 * The pure display logic of `apps/web/src/TensionVisualizer.jsx`: the score
 * is clamped to 0..100, drawn as a bar of that width, coloured by zone, and
 * pulses when high. Scores are JavaScript numbers, modelled as reals.
 */
module Visualizer {
  import opened Numeric

  datatype Zone = Emerald | Amber | Coral

  /** `Math.min(100, Math.max(0, Number(score)))`. */
  function Clamped(score: real): (c: real)
    ensures 0.0 <= c <= 100.0
    ensures 0.0 <= score <= 100.0 ==> c == score
    ensures score < 0.0 ==> c == 0.0
    ensures score > 100.0 ==> c == 100.0
  {
    Clamp(0.0, 100.0, score)
  }

  /** The bar's width in percent: the score itself when it is a valid
      percentage, an empty or full bar beyond either end. */
  function BarWidth(score: real): (w: real)
    ensures 0.0 <= w <= 100.0
    ensures 0.0 <= score <= 100.0 ==> w == score
    ensures score < 0.0 ==> w == 0.0
    ensures score > 100.0 ==> w == 100.0
  {
    Clamped(score)
  }

  /** `getBarColor` on the clamped score. */
  function ZoneOf(c: real): (z: Zone)
    ensures z == Emerald <==> c <= 30.0
    ensures z == Amber <==> 30.0 < c <= 60.0
    ensures z == Coral <==> c > 60.0
  {
    if c <= 30.0 then Emerald else if c <= 60.0 then Amber else Coral
  }

  function Rank(z: Zone): nat {
    match z
    case Emerald => 0
    case Amber => 1
    case Coral => 2
  }

  /** A higher score never shows a calmer colour, nor a narrower bar. */
  lemma ZoneMonotone(a: real, b: real)
    requires a <= b
    ensures Rank(ZoneOf(Clamped(a))) <= Rank(ZoneOf(Clamped(b)))
    ensures BarWidth(a) <= BarWidth(b)
  {
  }

  /** `isHighTension`: pulse above 70. */
  function Pulse(score: real): (p: bool)
    ensures p <==> score > 70.0
  {
    Clamped(score) > 70.0
  }

  /** Pulsing happens only inside the coral zone. */
  lemma PulseOnlyInCoral(score: real)
    requires Pulse(score)
    ensures ZoneOf(Clamped(score)) == Coral
  {
  }

  /** `clamped / 10`, the 0..10 reading. */
  function Normalized(score: real): (n: real)
    ensures 0.0 <= n <= 10.0
    ensures n * 10.0 == Clamped(score)
  {
    Clamped(score) / 10.0
  }

  /** The aria label's value: `Math.round(normalized * 10) / 10`, where
      `Math.round` rounds halves up. */
  function AriaLevel(score: real): (a: real)
    ensures 0.0 <= a <= 10.0
    ensures Normalized(score) - 0.05 < a <= Normalized(score) + 0.05
  {
    (Normalized(score) * 10.0 + 0.5).Floor as real / 10.0
  }
}
