/**
 One press of the Record button after the audio is captured: detect the
 pitch, map it to a note and decide the feedback. In the application a
 non-positive detected frequency would make `hz_to_note` return
 `(None, None, None)` and `show_feedback` fail on `abs(None)`; that outcome
 is `Crashed` here, and it cannot happen when the tracker reports only
 positive frequencies.
 */
module Session {
  import opened Wrappers
  import PitchEstimator
  import NoteMapper
  import Feedback

  datatype Outcome =
    | NoPitchDetected
    | Shown(freq: real, note: NoteMapper.Note, display: Feedback.Display)
    | Crashed

  function Analyze(log2: real -> real, exp2: real -> real, frames: seq<Option<real>>): (r: Outcome)
    ensures r.NoPitchDetected? <==> forall i :: 0 <= i < |frames| ==> frames[i].None?
    ensures r.Crashed? <==> PitchEstimator.DetectPitch(frames).Some? && PitchEstimator.DetectPitch(frames).value <= 0.0
    ensures r.Crashed? ==> exists i :: 0 <= i < |frames| && frames[i].Some? && frames[i].value <= 0.0
    ensures r.Shown? ==> PitchEstimator.DetectPitch(frames) == Some(r.freq) && r.freq > 0.0
    ensures r.Shown? ==> NoteMapper.HzToNote(log2, exp2, r.freq) == Some(r.note)
    ensures r.Shown? ==> exists nearest: int ::
      && r.note.name == NoteMapper.NoteName(nearest)
      && NoteMapper.MidiNumber(log2, r.freq) == nearest as real + r.note.centsOff / 100.0
      && (r.note.centsOff == 50.0 || r.note.centsOff == -50.0 ==> nearest % 2 == 0)
    ensures r.Shown? ==> -50.0 <= r.note.centsOff <= 50.0 && r.display == Feedback.ShowFeedback(r.note.centsOff)
  {
    match PitchEstimator.DetectPitch(frames)
    case None => NoPitchDetected
    case Some(freq) =>
      match NoteMapper.HzToNote(log2, exp2, freq)
      case None => Crashed
      case Some(note) => Shown(freq, note, Feedback.ShowFeedback(note.centsOff))
  }

  /** With the tracker's estimates confined to a positive band, a detected pitch is always shown. */
  lemma PositiveEstimatesAreShown(log2: real -> real, exp2: real -> real, frames: seq<Option<real>>, fmin: real, fmax: real)
    requires 0.0 < fmin
    requires forall i :: 0 <= i < |frames| && frames[i].Some? ==> fmin <= frames[i].value <= fmax
    ensures !Analyze(log2, exp2, frames).Crashed?
    ensures Analyze(log2, exp2, frames).Shown? ==> fmin <= Analyze(log2, exp2, frames).freq <= fmax
  {
    PitchEstimator.DetectPitchWithinBand(frames, fmin, fmax);
  }
}
