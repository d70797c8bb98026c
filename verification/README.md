# TuneTrainer pitch arithmetic, modelled in Dafny

TuneTrainer records a short sung or played note, estimates its fundamental
frequency and tells the player which equal-tempered note it is nearest to and
how many cents sharp or flat it is. This project models the deterministic
core of `tunetrainer_app.py`:

- `hz_to_note`: a frequency becomes a fractional MIDI number
  (`69 + 12 * log2(freq / 440)`), which is rounded with Python 3 `round`
  (ties to even) to the nearest note. The cents deviation is derived from it.
  The note is named from a 12-entry pitch-class table and an octave, using
  Python floor `%` and `//`. Its target frequency is `440 * 2 ** ((n - 69) / 12)`.
  A non-positive frequency gives no note.
- The reduction step of `detect_pitch`: NaN entries, if any, are dropped
  from the pitch tracker's per-frame estimates, and the rest are reduced to
  their median (`np.median`), or to no pitch when nothing remains.
- The decisions of `show_feedback`: in tune within 5 cents, otherwise sharp or
  flat, and the progress-bar value `int(np.clip(cents_off + 50, 0, 100))`.
- The glue that runs these one after another when Record is pressed.

Files, one module each:

- `wrappers.dfy` (`Wrappers`): `Option`.
- `pyarith.dfy` (`PyArith`): Python's floor `//` and `%`, `round`, `int()` on a float, `abs`, and NumPy's `clip`.
- `decimal.dfy` (`Decimal`): Python `str` on integers, and a parser that inverts it.
- `notes.dfy` (`NoteMapper`): `hz_to_note`.
- `pitch.dfy` (`PitchEstimator`): the filter-and-median reduction of `detect_pitch`.
- `feedback.dfy` (`Feedback`): `show_feedback`'s classification and progress value.
- `session.dfy` (`Session`): detection, note mapping and feedback in sequence.

Modelling choices:

- Floats are exact reals.
- A NaN frame estimate is `None`.
- `math.log2` and `2 ** x` are function-typed parameters (`log2`, `exp2`). A
  lemma that needs one of their values states it as a precondition, such as
  `log2(1.0) == 0.0`.

Behaviour of the code worth knowing:

- Python 3 `round` sends a tie to the even neighbour, so MIDI 68.5 is G#4 at
  +50 cents and 69.5 is A#4 at -50 cents (`NoteMapper.HalfwayGoesToEven`).
- Both -50 and +50 cents occur.
- A non-positive detected frequency makes `hz_to_note` return
  `(None, None, None)`, and `show_feedback` then fails on `abs(None)`.
  `Session.Analyze` names that outcome `Crashed`.
  `Session.PositiveEstimatesAreShown` proves it cannot happen while the
  tracker reports frequencies inside a positive band.
- The progress value is clamped as the code computes it.

## Model

| member | source | states |
|---|---|---|
| PyArith.FloorDiv | tunetrainer_app.py:49 | `//` rounds toward negative infinity: `b*q <= a < b*q + b` for a positive divisor, mirrored for a negative one |
| PyArith.FloorMod | tunetrainer_app.py:49 | `%` satisfies `a == b*(a//b) + r`, with `0 <= r < b` for a positive divisor, even when `a` is negative |
| PyArith.FloorDivIsFloorOfQuotient | tunetrainer_app.py:49 | `a // b` equals the floor of the exact quotient `a / b` |
| PyArith.RoundHalfEven | tunetrainer_app.py:45 | `round(x)` is within 1/2 of `x`, and at distance exactly 1/2 it is even |
| PyArith.RoundHalfEvenUnique | tunetrainer_app.py:45 | those two properties determine the rounded integer uniquely |
| PyArith.RoundHalfEvenIsNearest | tunetrainer_app.py:45 | no integer is closer to `x` than `round(x)` |
| PyArith.RoundHalfEvenMonotone | tunetrainer_app.py:45 | `x <= y` implies `round(x) <= round(y)` |
| PyArith.Abs | tunetrainer_app.py:58 | `abs` is non-negative and equals `x` or `-x` |
| PyArith.Trunc | tunetrainer_app.py:66 | `int()` on a float truncates toward zero: floor for non-negative values, ceiling for negative ones |
| PyArith.Clip | tunetrainer_app.py:66 | `np.clip` lands in `[lo, hi]`, keeps values already inside, and sends values outside to the nearer end |
| Decimal.IntToString | tunetrainer_app.py:49 | `str(n)` is non-empty and starts with `-` exactly for negative `n`; the rest is digits, in canonical form: no leading zero and no "-0" |
| Decimal.IntToStringRoundTrip | tunetrainer_app.py:49 | parsing `str(n)` gives back `n` |
| Decimal.IntToStringInjective | tunetrainer_app.py:49 | distinct octaves print differently |
| Decimal.ParseIntOnlyReadsPrinted | tunetrainer_app.py:49 | every string the integer parser accepts is exactly what `str` prints for the value read, so `str` and the parser are mutually inverse |
| NoteMapper.PitchClass | tunetrainer_app.py:48-49 | `nearest_midi % 12` indexes the 12-entry table in range for every MIDI number, negative ones included, and is congruent to it |
| NoteMapper.Octave | tunetrainer_app.py:49 | `nearest_midi // 12 - 1` is the octave whose 12 MIDI numbers contain `nearest_midi` |
| NoteMapper.DecodeRecoversMidi | tunetrainer_app.py:49 | `12 * (octave + 1) + pitch class` recovers the MIDI number |
| NoteMapper.PitchClassIndexOfName | tunetrainer_app.py:48 | the 12 pitch-class names are distinct, so each name is found at its own index |
| NoteMapper.NoteName | tunetrainer_app.py:48-49 | the name (pitch-class name followed by `str` of the octave) reads back as the MIDI number it came from, under a parser that accepts only canonical octave digits (no leading zero, no "-0") |
| NoteMapper.ParseNoteNameOnlyReadsNames | tunetrainer_app.py:48-49 | every string the note-name parser accepts is exactly the name of the note it reads, so a name such as "A04" is not a spelling of A4: together with `NoteName` this makes naming a bijection between MIDI numbers and well-formed names |
| NoteMapper.NoteNameInjective | tunetrainer_app.py:48-49 | distinct nearest notes get distinct names |
| NoteMapper.NoteNameExamples | tunetrainer_app.py:48-49 | MIDI 69 is "A4", 60 is "C4" and 70 is "A#4" |
| NoteMapper.NoteNameNegativeOctaves | tunetrainer_app.py:48-49 | floor `%` and `//` make MIDI 0 "C-1" and -1 "B-2" |
| NoteMapper.TargetFreq | tunetrainer_app.py:50 | when `2 ** 0 == 1`, the target of MIDI 69 is 440 Hz; the target is positive whenever `2 ** ((n - 69) / 12)` is |
| NoteMapper.TargetOfA4 | tunetrainer_app.py:50 | MIDI 69's target frequency is the 440 Hz reference when `2 ** 0 == 1` |
| NoteMapper.TargetOctaveDoubles | tunetrainer_app.py:50 | twelve notes up doubles the target, given `2 ** (x + 1) == 2 * 2 ** x` |
| NoteMapper.MidiNumber | tunetrainer_app.py:44 | when `log2(1) == 0`, 440 Hz is exactly MIDI 69; the MIDI number is above 69 (A4) exactly when `log2(freq / 440)` is positive |
| NoteMapper.MidiNumberOctave | tunetrainer_app.py:44 | doubling the frequency adds 12 to `midi_num`, given `log2(2x) == log2(x) + 1` |
| NoteMapper.NoteFromMidi | tunetrainer_app.py:45-50 | cents lie in [-50, 50]. Name, cents and target all come from one integer `n`: the name is `NoteName(n)`, `midi_num == n + cents/100`, `n` is even at ±50 cents, and the target is `n`'s |
| NoteMapper.HzToNote | tunetrainer_app.py:37-52 | no note exactly for `freq <= 0`. Otherwise cents lie in [-50, 50], and name, cents and target agree on one integer `n` with `midi_num == n + cents/100`, even at ±50 cents, as `round` picks |
| NoteMapper.HzToNoteOfA440 | tunetrainer_app.py:41-52 | 440 Hz is ("A4", 0 cents, 440 Hz) |
| NoteMapper.HalfwayGoesToEven | tunetrainer_app.py:45-46 | MIDI 68.5 is G#4 at +50 cents, and 69.5 is A#4 at -50 cents |
| NoteMapper.SameNameSameTarget | tunetrainer_app.py:49-50 | two frequencies with the same note name have the same target frequency, whatever their cents |
| NoteMapper.CentsIncreaseWithinNote | tunetrainer_app.py:44-46 | with an increasing `log2`, a higher frequency on the same note has a strictly larger cents deviation |
| PitchEstimator.DefinedEstimates | tunetrainer_app.py:31 | the NaN filter keeps each defined estimate exactly as often as it occurs among the frames |
| PitchEstimator.DefinedEstimateHasFrame | tunetrainer_app.py:31 | every estimate that survives the NaN filter is the value of some frame |
| PitchEstimator.DefinedEstimatesEmpty | tunetrainer_app.py:31-32 | nothing remains after filtering exactly when every frame is undefined |
| PitchEstimator.Sort | tunetrainer_app.py:34 | the ordering behind `np.median` is sorted and a permutation of its input |
| PitchEstimator.SortedUnique | tunetrainer_app.py:34 | two sorted permutations of the same values are equal, so the sorted order is unique |
| PitchEstimator.Median | tunetrainer_app.py:34 | the median is the middle sorted value for an odd count and the mean of the two middle sorted values for an even count, so it lies between them |
| PitchEstimator.MedianSplitsValues | tunetrainer_app.py:34 | at least half of the sorted values are at most the median, and at least half are at least it |
| PitchEstimator.MedianBetweenExtremes | tunetrainer_app.py:34 | the median lies between the minimum and the maximum |
| PitchEstimator.MedianIgnoresOrder | tunetrainer_app.py:34 | permuting the values leaves the median unchanged |
| PitchEstimator.DetectPitch | tunetrainer_app.py:28-34 | `None` exactly when every frame is undefined. Otherwise the result is the median of the defined estimates, bounded below and above by defined frames |
| PitchEstimator.DetectPitchIgnoresOrderAndGaps | tunetrainer_app.py:31-34 | the result depends only on the multiset of defined estimates, not on order or on how many frames are undefined |
| PitchEstimator.DetectPitchWithinBand | tunetrainer_app.py:30-34 | if every defined estimate lies in `[lo, hi]`, so does the detected pitch |
| Feedback.Classify | tunetrainer_app.py:58-64 | in tune exactly for -5 < cents < 5, sharp exactly for cents >= 5, flat exactly for cents <= -5, so the three cases are exclusive and exhaustive |
| Feedback.Progress | tunetrainer_app.py:66 | the bar value lies in [0, 100]. It is `floor(cents + 50)` for cents in [-50, 50], 0 below and 100 above |
| Feedback.ProgressMonotone | tunetrainer_app.py:66 | a larger deviation never gives a smaller bar value |
| Feedback.ProgressAgreesWithVerdict | tunetrainer_app.py:58-66 | in tune puts the bar in 45..54, sharp at 55 or more, and flat at 45 or less |
| Feedback.ShowFeedback | tunetrainer_app.py:55-67 | the displayed magnitude is the absolute deviation. The verdict is in tune below 5, sharp at 5 or more and flat at -5 or less. The bar lies in [0, 100], is `floor(cents + 50)` in [-50, 50], and is 0 below and 100 above |
| Session.Analyze | tunetrainer_app.py:93-99 | "no pitch" exactly when every frame is undefined. A crash exactly when the detected pitch is non-positive. A shown run displays the detected pitch, `hz_to_note` of it (name and cents tied to its MIDI number, even at ±50 cents), and `show_feedback` of its cents |
| Session.PositiveEstimatesAreShown | tunetrainer_app.py:93-99 | with every estimate in a positive band `[fmin, fmax]`, the run never crashes, and a shown frequency lies in the band |

## Left out

- `record_audio` (microphone capture through sounddevice, and Streamlit messages): I/O.
- `librosa.yin` and `librosa.note_to_hz`: library code that is not part of this model. The tracker's per-frame output is the input sequence of the reduction.
- Floating-point rounding of `math.log2`, `2 ** x`, the subtraction and scaling in the cents computation, and the mean in `np.median`: all values are exact reals, and `log2` and `2 ** x` are parameters.
- NaN or infinite frequencies given to `hz_to_note` (Python would raise in `round`): the model's frequencies are reals.
- The Streamlit page: layout, sidebar, buttons, message texts, the details expander and the waveform plot.
