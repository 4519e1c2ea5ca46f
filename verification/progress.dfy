/**
 The bar of the `Progress` component (malla/src/components/ui/progress.tsx):
 its width is `Math.min(100, Math.max(0, value))` percent, with an absent
 `value` read as 0.
 */
module ProgressBar {
  import opened Options

  /** `Math.min(100, Math.max(0, v))`. */
  function Clamp(v: real): (r: real)
    ensures 0.0 <= r <= 100.0
    ensures 0.0 <= v <= 100.0 ==> r == v
    ensures v < 0.0 ==> r == 0.0
    ensures v > 100.0 ==> r == 100.0
  {
    var low := if v < 0.0 then 0.0 else v;
    if low > 100.0 then 100.0 else low
  }

  /** The width of the bar for the `value` prop, which defaults to 0. */
  function BarWidth(value: Option<real>): (r: real)
    ensures value.None? ==> r == 0.0
    ensures value.Some? ==> r == Clamp(value.value)
  {
    Clamp(match value case Some(v) => v case None => 0.0)
  }

  /** Clamping an already clamped width changes nothing. */
  lemma ClampIdempotent(v: real)
    ensures Clamp(Clamp(v)) == Clamp(v)
  {
  }

  /** A larger value never draws a narrower bar. */
  lemma ClampMonotone(a: real, b: real)
    requires a <= b
    ensures Clamp(a) <= Clamp(b)
  {
  }
}
