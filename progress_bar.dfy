/** The progress bar's clamp (src/components/ui/ProgressBar.tsx). */
module ProgressBar {
  import opened Types

  /** `Math.min(Math.max(progress, 0), 100)`. */
  function Clamp(progress: real): (r: real)
    ensures 0.0 <= r <= 100.0
    ensures 0.0 <= progress <= 100.0 ==> r == progress
    ensures progress < 0.0 ==> r == 0.0
    ensures progress > 100.0 ==> r == 100.0
  {
    var atLeastZero := if progress > 0.0 then progress else 0.0;
    if atLeastZero < 100.0 then atLeastZero else 100.0
  }

  lemma ClampIdempotent(p: real)
    ensures Clamp(Clamp(p)) == Clamp(p)
  {
  }

  lemma ClampMonotone(a: real, b: real)
    requires a <= b
    ensures Clamp(a) <= Clamp(b)
  {
  }

  /** The width the bar draws for an enrollment's progress; the `Infinity` of
      a course without lessons is clamped to a full bar. */
  function BarWidth(p: Progress): (r: real)
    ensures 0.0 <= r <= 100.0
    ensures p.Infinite? ==> r == 100.0
    ensures p.Percent? ==> r == Clamp(p.value)
    ensures p.Percent? && 0.0 <= p.value <= 100.0 ==> r == p.value
    ensures p.Percent? && p.value > 100.0 ==> r == 100.0
    ensures p.Percent? && p.value < 0.0 ==> r == 0.0
  {
    match p
    case Infinite => 100.0
    case Percent(v) => Clamp(v)
  }
}
