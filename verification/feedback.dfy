/**
 The decisions `show_feedback` makes before drawing: whether the note is in
 tune (within 5 cents), sharp or flat, and the value of the progress bar,
 `int(np.clip(cents_off + 50, 0, 100))`. The messages and widgets are not modelled.
 */
module Feedback {
  import opened PyArith

  datatype Verdict = InTune | Sharp | Flat

  /** What the page reports for a deviation of `centsOff`. */
  datatype Display = Display(verdict: Verdict, centsAbs: real, progress: int)

  /** The in-tune / sharp / flat decision. */
  function Classify(centsOff: real): (v: Verdict)
    ensures v == InTune <==> -5.0 < centsOff < 5.0
    ensures v == Sharp <==> centsOff >= 5.0
    ensures v == Flat <==> centsOff <= -5.0
  {
    var centsAbs := Abs(centsOff);
    if centsAbs < 5.0 then InTune
    else if centsOff > 0.0 then Sharp
    else Flat
  }

  /** The progress-bar position: 50 is exactly in tune, 0 fully flat, 100 fully sharp. */
  function Progress(centsOff: real): (p: int)
    ensures 0 <= p <= 100
    ensures -50.0 <= centsOff <= 50.0 ==> p == (centsOff + 50.0).Floor
    ensures centsOff <= -50.0 ==> p == 0
    ensures centsOff >= 50.0 ==> p == 100
  {
    Trunc(Clip(centsOff + 50.0, 0.0, 100.0))
  }

  /** A larger deviation never moves the bar to the left. */
  lemma ProgressMonotone(c: real, d: real)
    requires c <= d
    ensures Progress(c) <= Progress(d)
  {
  }

  /** The bar agrees with the verdict: in tune is 45..54, sharp is 55 or more, flat is 45 or less. */
  lemma ProgressAgreesWithVerdict(centsOff: real)
    ensures Classify(centsOff) == InTune ==> 45 <= Progress(centsOff) <= 54
    ensures Classify(centsOff) == Sharp ==> Progress(centsOff) >= 55
    ensures Classify(centsOff) == Flat ==> Progress(centsOff) <= 45
  {
  }

  /** `show_feedback(note_name, cents_off)`, without its rendering. */
  function ShowFeedback(centsOff: real): (d: Display)
    ensures d.centsAbs >= 0.0 && (d.centsAbs == centsOff || d.centsAbs == -centsOff)
    ensures d.verdict == InTune <==> d.centsAbs < 5.0
    ensures d.verdict == Sharp <==> centsOff >= 5.0
    ensures d.verdict == Flat <==> centsOff <= -5.0
    ensures 0 <= d.progress <= 100
    ensures -50.0 <= centsOff <= 50.0 ==> d.progress == (centsOff + 50.0).Floor
    ensures centsOff <= -50.0 ==> d.progress == 0
    ensures centsOff >= 50.0 ==> d.progress == 100
  {
    Display(Classify(centsOff), Abs(centsOff), Progress(centsOff))
  }
}
