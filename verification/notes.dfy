/**
 The frequency-to-note mapping of `hz_to_note`: a frequency becomes a
 fractional MIDI number (69 is A4 at 440 Hz, twelve numbers per octave), which
 is rounded to the nearest note; the note is named by pitch class and octave,
 and reported with its deviation in cents and its exact equal-tempered
 frequency. `log2` and `2 ** x` are outside the model: they are parameters.
 */
module NoteMapper {
  import opened Wrappers
  import opened PyArith
  import Decimal

  /** The twelve pitch-class names, indexed by MIDI number modulo 12. */
  const PitchClassNames: seq<string> :=
    ["C", "C#", "D", "D#", "E", "F", "F#", "G", "G#", "A", "A#", "B"]

  /** What `hz_to_note` returns for a positive frequency. */
  datatype Note = Note(name: string, centsOff: real, targetFreq: real)

  /** Python `nearest_midi % 12`. */
  function PitchClass(midi: int): (pc: nat)
    ensures pc < |PitchClassNames|
    ensures (midi - pc) % 12 == 0
  {
    FloorMod(midi, 12)
  }

  /** Python `(nearest_midi // 12) - 1`. */
  function Octave(midi: int): (oct: int)
    ensures 12 * (oct + 1) <= midi < 12 * (oct + 2)
  {
    FloorDiv(midi, 12) - 1
  }

  /** Pitch class and octave together determine the MIDI number. */
  lemma DecodeRecoversMidi(midi: int)
    ensures 12 * (Octave(midi) + 1) + PitchClass(midi) == midi
  {
  }

  /** The name `hz_to_note` gives to a MIDI note, such as "A4" or "C#-1"; it reads back as that note. */
  function NoteName(midi: int): (s: string)
    ensures ParseNoteName(s) == Some(midi)
  {
    SpellingReadsBack(midi);
    PitchClassNames[PitchClass(midi)] + Decimal.IntToString(Octave(midi))
  }

  lemma SpellingReadsBack(midi: int)
    ensures ParseNoteName(PitchClassNames[PitchClass(midi)] + Decimal.IntToString(Octave(midi))) == Some(midi)
  {
    var pc, oct := PitchClass(midi), Octave(midi);
    var p, d := PitchClassNames[pc], Decimal.IntToString(oct);
    var s := p + d;
    PitchClassNameShape(pc);
    PitchClassIndexOfName(pc);
    Decimal.IntToStringRoundTrip(oct);
    DecodeRecoversMidi(midi);
    var k := if |s| >= 2 && s[1] == '#' then 2 else 1;
    if |p| == 1 {
      assert s[1] == d[0];
      assert k == 1;
    }
    assert s[..k] == p;
    assert s[k..] == d;
  }

  /** The position of a pitch-class name in the table, if it is one. */
  function PitchClassIndex(name: string): (r: Option<nat>)
    ensures r.Some? ==> r.value < |PitchClassNames| && PitchClassNames[r.value] == name
  {
    IndexFrom(name, 0)
  }

  function IndexFrom(name: string, i: nat): (r: Option<nat>)
    requires i <= |PitchClassNames|
    ensures r.Some? ==> i <= r.value < |PitchClassNames| && PitchClassNames[r.value] == name
    decreases |PitchClassNames| - i
  {
    if i == |PitchClassNames| then None
    else if PitchClassNames[i] == name then Some(i)
    else IndexFrom(name, i + 1)
  }

  /** Reads a note name back into its MIDI number. */
  function ParseNoteName(s: string): Option<int> {
    var k := if |s| >= 2 && s[1] == '#' then 2 else 1;
    if |s| < k then None
    else
      match (PitchClassIndex(s[..k]), Decimal.ParseInt(s[k..]))
      case (Some(pc), Some(oct)) => Some(12 * (oct + 1) + pc)
      case _ => None
  }

  /** The names in the table are distinct, so each one is found at its own index. */
  lemma PitchClassIndexOfName(pc: nat)
    requires pc < |PitchClassNames|
    ensures PitchClassIndex(PitchClassNames[pc]) == Some(pc)
  {
  }

  /** A table name has a sharp sign exactly when it is two characters long. */
  lemma PitchClassNameShape(pc: nat)
    requires pc < |PitchClassNames|
    ensures 1 <= |PitchClassNames[pc]| <= 2
    ensures |PitchClassNames[pc]| == 2 ==> PitchClassNames[pc][1] == '#'
  {
  }

  /** Distinct nearest notes get distinct names. */
  lemma NoteNameInjective(m: int, n: int)
    ensures NoteName(m) == NoteName(n) ==> m == n
  {
  }

  /** The converse of the round trip: the parser accepts only names `NoteName` produces. */
  lemma ParseNoteNameOnlyReadsNames(s: string, m: int)
    requires ParseNoteName(s) == Some(m)
    ensures s == NoteName(m)
  {
    var k := if |s| >= 2 && s[1] == '#' then 2 else 1;
    var pc, oct := PitchClassIndex(s[..k]).value, Decimal.ParseInt(s[k..]).value;
    assert m == 12 * (oct + 1) + pc;
    Decimal.ParseIntOnlyReadsPrinted(s[k..], oct);
    assert PitchClass(m) == pc && Octave(m) == oct by {
      DecodeRecoversMidi(m);
    }
    assert s == s[..k] + s[k..];
  }

  /** Notes of the fourth octave: A4 is MIDI 69, C4 is 60, A#4 is 70. */
  lemma NoteNameExamples()
    ensures NoteName(69) == "A4"
    ensures NoteName(60) == "C4"
    ensures NoteName(70) == "A#4"
  {
    NameOf(69, 9, 4, "A4");
    NameOf(60, 0, 4, "C4");
    NameOf(70, 10, 4, "A#4");
  }

  /** Floor division and modulo give negative octaves below MIDI 12: 0 is C-1, -1 is B-2. */
  lemma NoteNameNegativeOctaves()
    ensures NoteName(0) == "C-1"
    ensures NoteName(-1) == "B-2"
  {
    NameOf(0, 0, -1, "C-1");
    NameOf(-1, 11, -2, "B-2");
  }

  /** Spells one note from its pitch class and octave, checked separately to keep each proof small. */
  lemma NameOf(midi: int, pc: nat, oct: int, name: string)
    requires pc < |PitchClassNames|
    requires midi == 12 * (oct + 1) + pc
    requires name == PitchClassNames[pc] + Decimal.IntToString(oct)
    ensures NoteName(midi) == name
  {
    assert PitchClass(midi) == pc && Octave(midi) == oct;
  }

  /** The equal-tempered frequency of a MIDI note, `440 * 2 ** ((midi - 69) / 12)`. */
  function TargetFreq(exp2: real -> real, midi: int): (f: real)
    ensures exp2(0.0) == 1.0 && midi == 69 ==> f == 440.0
    ensures exp2((midi - 69) as real / 12.0) > 0.0 ==> f > 0.0
  {
    440.0 * exp2((midi - 69) as real / 12.0)
  }

  /** One octave up doubles the target, given `2 ** (x + 1) == 2 * 2 ** x` at that exponent. */
  lemma TargetOctaveDoubles(exp2: real -> real, midi: int)
    requires exp2((midi - 69) as real / 12.0 + 1.0) == 2.0 * exp2((midi - 69) as real / 12.0)
    ensures TargetFreq(exp2, midi + 12) == 2.0 * TargetFreq(exp2, midi)
  {
    assert (midi + 12 - 69) as real / 12.0 == (midi - 69) as real / 12.0 + 1.0;
  }

  /** The reference note A4 is 440 Hz whenever `2 ** 0` is 1. */
  lemma TargetOfA4(exp2: real -> real)
    requires exp2(0.0) == 1.0
    ensures TargetFreq(exp2, 69) == 440.0
  {
  }

  /** The note for a fractional MIDI number: the body of `hz_to_note` after `midi_num`. */
  function NoteFromMidi(exp2: real -> real, midiNum: real): (n: Note)
    ensures -50.0 <= n.centsOff <= 50.0
    ensures exists nearest: int ::
      && n.name == NoteName(nearest)
      && midiNum == nearest as real + n.centsOff / 100.0
      && (n.centsOff == 50.0 || n.centsOff == -50.0 ==> nearest % 2 == 0)
      && n.targetFreq == TargetFreq(exp2, nearest)
  {
    var nearest := RoundHalfEven(midiNum);
    Note(NoteName(nearest), (midiNum - nearest as real) * 100.0, TargetFreq(exp2, nearest))
  }

  /** `midi_num = 69 + 12 * log2(freq / 440)`. */
  function MidiNumber(log2: real -> real, freq: real): (m: real)
    ensures log2(1.0) == 0.0 && freq == 440.0 ==> m == 69.0
    ensures m > 69.0 <==> log2(freq / 440.0) > 0.0
  {
    69.0 + 12.0 * log2(freq / 440.0)
  }

  /** Doubling the frequency adds twelve, given `log2(2x) == log2(x) + 1` at that ratio. */
  lemma MidiNumberOctave(log2: real -> real, freq: real)
    requires log2(2.0 * freq / 440.0) == log2(freq / 440.0) + 1.0
    ensures MidiNumber(log2, 2.0 * freq) == MidiNumber(log2, freq) + 12.0
  {
    assert 2.0 * freq / 440.0 == (2.0 * freq) / 440.0;
  }

  /** `hz_to_note`: no note for a non-positive frequency, otherwise the nearest note. */
  function HzToNote(log2: real -> real, exp2: real -> real, freq: real): (r: Option<Note>)
    ensures r.None? <==> freq <= 0.0
    ensures r.Some? ==> -50.0 <= r.value.centsOff <= 50.0
    ensures r.Some? ==> exists nearest: int ::
      && r.value.name == NoteName(nearest)
      && MidiNumber(log2, freq) == nearest as real + r.value.centsOff / 100.0
      && (r.value.centsOff == 50.0 || r.value.centsOff == -50.0 ==> nearest % 2 == 0)
      && r.value.targetFreq == TargetFreq(exp2, nearest)
  {
    if freq <= 0.0 then None
    else Some(NoteFromMidi(exp2, MidiNumber(log2, freq)))
  }

  /** 440 Hz is A4, exactly in tune, with the 440 Hz reference as its target. */
  lemma HzToNoteOfA440(log2: real -> real, exp2: real -> real)
    requires log2(1.0) == 0.0
    requires exp2(0.0) == 1.0
    ensures HzToNote(log2, exp2, 440.0) == Some(Note("A4", 0.0, 440.0))
  {
    assert MidiNumber(log2, 440.0) == 69.0;
    assert RoundHalfEven(69.0) == 69;
    NoteNameExamples();
  }

  /** A value exactly halfway between two notes goes to the even MIDI number: 68.5 to G#4, 69.5 to A#4. */
  lemma HalfwayGoesToEven(exp2: real -> real)
    ensures NoteFromMidi(exp2, 68.5).name == "G#4" && NoteFromMidi(exp2, 68.5).centsOff == 50.0
    ensures NoteFromMidi(exp2, 69.5).name == "A#4" && NoteFromMidi(exp2, 69.5).centsOff == -50.0
  {
    assert RoundHalfEven(68.5) == 68;
    assert RoundHalfEven(69.5) == 70;
  }

  /** The target frequency depends only on the nearest note: equal names, equal targets. */
  lemma SameNameSameTarget(log2: real -> real, exp2: real -> real, f: real, g: real)
    requires 0.0 < f && 0.0 < g
    ensures HzToNote(log2, exp2, f).value.name == HzToNote(log2, exp2, g).value.name ==>
              HzToNote(log2, exp2, f).value.targetFreq == HzToNote(log2, exp2, g).value.targetFreq
  {
  }

  /** Within one note, a higher frequency is more cents sharp, provided `log2` is increasing. */
  lemma CentsIncreaseWithinNote(log2: real -> real, exp2: real -> real, f: real, g: real)
    requires forall x, y :: 0.0 < x < y ==> log2(x) < log2(y)
    requires 0.0 < f < g
    ensures HzToNote(log2, exp2, f).value.name == HzToNote(log2, exp2, g).value.name ==>
              HzToNote(log2, exp2, f).value.centsOff < HzToNote(log2, exp2, g).value.centsOff
  {
  }
}
