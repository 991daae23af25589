/** Note values, time signatures and tempo (`notation.rs`). */
module Notation {
  import opened Options

  datatype NoteValue = Whole | Half | Quarter | Eighth | Sixteenth | ThirtySecond | SixtyFourth {
    function Denominator(): (d: nat)
      ensures 1 <= d <= 64
    {
      match this
      case Whole => 1
      case Half => 2
      case Quarter => 4
      case Eighth => 8
      case Sixteenth => 16
      case ThirtySecond => 32
      case SixtyFourth => 64
    }

    /** Length in 64th notes. */
    function In64ths(): (n: nat)
      ensures 1 <= n <= 64
    {
      64 / Denominator()
    }

    function Letter(): char {
      match this
      case Whole => 'w'
      case Half => 'h'
      case Quarter => 'q'
      case Eighth => 'e'
      case Sixteenth => 's'
      case ThirtySecond => 't'
      case SixtyFourth => 'x'
    }
  }

  function ToAsciiLower(c: char): char {
    if 'A' <= c <= 'Z' then (c as int + 32) as char else c
  }

  function FromLetter(c: char): Option<NoteValue> {
    match ToAsciiLower(c)
    case 'w' => Some(Whole)
    case 'h' => Some(Half)
    case 'q' => Some(Quarter)
    case 'e' => Some(Eighth)
    case 's' => Some(Sixteenth)
    case 't' => Some(ThirtySecond)
    case 'x' => Some(SixtyFourth)
    case _ => None
  }

  /** A letter, in either case, names a value exactly when it is that value's letter. */
  lemma FromLetterExactly(c: char, v: NoteValue)
    ensures FromLetter(c) == Some(v) <==> ToAsciiLower(c) == v.Letter()
  {
  }

  /** Each note value lasts half as long as the one before, down to the 64th. */
  lemma LengthsHalve()
    ensures Whole.In64ths() == 2 * Half.In64ths() && Half.In64ths() == 2 * Quarter.In64ths()
    ensures Quarter.In64ths() == 2 * Eighth.In64ths() && Eighth.In64ths() == 2 * Sixteenth.In64ths()
    ensures Sixteenth.In64ths() == 2 * ThirtySecond.In64ths() && ThirtySecond.In64ths() == 2 * SixtyFourth.In64ths()
    ensures SixtyFourth.In64ths() == 1
  {
  }

  datatype TimeSignature = TimeSignature(beatsPerBar: nat, beatUnit: NoteValue) {
    function BarIn64ths(): nat {
      beatsPerBar * beatUnit.In64ths()
    }
  }

  /** An empty bar has no length, and a beat more makes it longer by one beat unit. */
  lemma BarLengths(n: nat, unit: NoteValue)
    ensures TimeSignature(0, unit).BarIn64ths() == 0
    ensures TimeSignature(n + 1, unit).BarIn64ths() == TimeSignature(n, unit).BarIn64ths() + unit.In64ths()
  {
    hide NoteValue.In64ths;
  }

  const COMMON := TimeSignature(4, Quarter)

  datatype Tempo = Tempo(quarterSeconds: nat)

  /** A bar's wall-clock length shared out over its 64ths; whole seconds only. */
  function FromBarSecs(barSecs: nat, barIn64ths: nat): Tempo
    requires barIn64ths > 0
  {
    Tempo(barSecs * Quarter.In64ths() / barIn64ths)
  }
}
