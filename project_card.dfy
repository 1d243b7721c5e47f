/**
 * src/components/ProjectCard.tsx: the colour of the progress label and bar,
 * chosen from three theme palette entries by threshold.
 */
module ProjectCard {

  /** The theme entries `success.main`, `primary.main` and `secondary.main`. */
  datatype PaletteColor = Success | Primary | Secondary

  /** `getProgressColor`: 80 and above, then 50 and above, then the rest. */
  function ProgressColor(progress: real): (c: PaletteColor)
    ensures c == Success <==> progress >= 80.0
    ensures c == Primary <==> 50.0 <= progress < 80.0
    ensures c == Secondary <==> progress < 50.0
  {
    if progress >= 80.0 then Success
    else if progress >= 50.0 then Primary
    else Secondary
  }

  /** The bands in increasing order. */
  function Rank(c: PaletteColor): nat
  {
    match c
    case Secondary => 0
    case Primary => 1
    case Success => 2
  }

  /** Raising the progress never moves it to a lower band. */
  lemma ProgressColorMonotone(p: real, q: real)
    requires p <= q
    ensures Rank(ProgressColor(p)) <= Rank(ProgressColor(q))
  {
  }

  /** The parts of the card that depend on the progress value. */
  datatype ProgressView = ProgressView(percentage: real, labelColor: PaletteColor, barValue: real, barColor: PaletteColor)

  function RenderProgress(mvpProgress: real): (v: ProgressView)
    ensures v.percentage == v.barValue == mvpProgress
    ensures v.labelColor == v.barColor
    ensures v.barColor == Success <==> mvpProgress >= 80.0
  {
    ProgressView(mvpProgress, ProgressColor(mvpProgress), mvpProgress, ProgressColor(mvpProgress))
  }
}
