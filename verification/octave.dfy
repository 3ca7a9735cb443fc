/** convert_note_to_note_octave of midi_to_pattern.py: absolute pitches
    become a pitch-class symbol and clipped up/down octave counts relative
    to the pattern's mean octave, so that a pattern moved by whole octaves
    reads the same. */
module OctaveNormalizer {
  import opened Common
  import opened Pattern
  import opened MidiGrid
  import opened MidiWalk
  import MidiProperties

  function Sum(g: seq<Cell>): int
  {
    if g == [] then 0 else Sum(g[..|g| - 1]) + g[|g| - 1].note
  }

  /** num / den rounded to the nearest integer, ties to the even neighbour
      (Python's round). */
  function RoundHalfEven(num: int, den: int): (r: int)
    requires den > 0
    ensures -den <= 2 * (num - r * den) <= den
    ensures 2 * (num - r * den) == den || 2 * (num - r * den) == -den ==> r % 2 == 0
  {
    var q := num / den;
    var rem := num % den;
    assert num - q * den == rem;
    assert num - (q + 1) * den == rem - den;
    if 2 * rem < den then q
    else if 2 * rem > den then q + 1
    else if q % 2 == 0 then q
    else q + 1
  }

  /** round(mean(note) / 12). */
  function MeanOctave(g: seq<Cell>): (m: int)
    requires |g| > 0
    ensures -12 * |g| <= 2 * (Sum(g) - 12 * |g| * m) <= 12 * |g|
  {
    RoundHalfEven(Sum(g), 12 * |g|)
  }

  /** Whether mean(note) / 12 lies exactly halfway between two integers. */
  predicate AtTie(g: seq<Cell>)
    requires |g| > 0
  {
    2 * (Sum(g) % (12 * |g|)) == 12 * |g|
  }

  /** One step relative to the pattern's mean octave m. */
  function NormalizeCell(c: Cell, m: int): (r: Row<char>)
    ensures r.note == NoteChar(c.note % 12)
    ensures r.up - r.down == Clamp(c.note / 12 - m, -4, 4)
    ensures 0 <= r.up <= 4 && 0 <= r.down <= 4 && (r.up == 0 || r.down == 0)
    ensures r.gate == c.gate && r.slide == c.slide && r.accent == c.accent
  {
    var ud := UpDown(c.note / 12 - m);
    Row(NoteChar((c.note - 36) % 12), ud.0, ud.1, c.gate, c.slide, c.accent)
  }

  /** The whole column conversion; an empty pattern has no mean. */
  function ConvertNoteToNoteOctave(g: seq<Cell>): (r: Result<seq<Row<char>>>)
    ensures r.Err? <==> |g| == 0
    ensures r.Ok? ==> |r.value| == |g|
    ensures r.Ok? ==> forall i :: 0 <= i < |g| ==>
      && r.value[i].note in CharToNoteValue
      && NoteValue(r.value[i].note) == g[i].note % 12
      && 0 <= r.value[i].up <= 4 && 0 <= r.value[i].down <= 4
      && (r.value[i].up == 0 || r.value[i].down == 0)
      && r.value[i].up - r.value[i].down == Clamp(g[i].note / 12 - MeanOctave(g), -4, 4)
      && r.value[i].gate == g[i].gate && r.value[i].slide == g[i].slide
      && r.value[i].accent == g[i].accent
  {
    if |g| == 0 then Err(EmptyPattern)
    else Ok(seq(|g|, i requires 0 <= i < |g| => NormalizeCell(g[i], MeanOctave(g))))
  }

  /** The row determines the pitch again, given the mean octave, whenever
      the step lies within four octaves of it. */
  lemma NormalizeCellInverse(c: Cell, m: int)
    requires -4 <= c.note / 12 - m <= 4
    ensures var r := NormalizeCell(c, m);
      12 * (m + r.up - r.down) + NoteValue(r.note) == c.note
  {
  }

  // ---------------------------------------------------------------------
  // Octave shift

  /** Every pitch moved by k octaves, nothing else changed. */
  function Transposed(g: seq<Cell>, k: int): (h: seq<Cell>)
    ensures |h| == |g|
    ensures forall i :: 0 <= i < |g| ==> h[i] == g[i].(note := g[i].note + 12 * k)
  {
    seq(|g|, i requires 0 <= i < |g| => g[i].(note := g[i].note + 12 * k))
  }

  lemma {:induction false} SumTransposed(g: seq<Cell>, k: int)
    ensures Sum(Transposed(g, k)) == Sum(g) + k * (12 * |g|)
  {
    if g != [] {
      var n := |g|;
      var h := Transposed(g, k);
      assert h[..n - 1] == Transposed(g[..n - 1], k);
      SumTransposed(g[..n - 1], k);
      assert k * (12 * (n - 1)) + 12 * k == k * (12 * n);
    }
  }

  /** Adding k to a quotient adds k to its rounding, unless it sits on a
      tie and k is odd. */
  lemma RoundShift(num: int, k: int, den: int)
    requires den > 0
    requires 2 * (num % den) != den || k % 2 == 0
    ensures RoundHalfEven(num + k * den, den) == RoundHalfEven(num, den) + k
  {
    DivModShift(num, k, den);
    var q := num / den;
    if 2 * (num % den) == den {
      assert (q + k) % 2 == 0 <==> q % 2 == 0 by {
        assert k == 2 * (k / 2);
      }
    }
  }

  /** Moving every pitch by k octaves moves the rounded mean octave by k,
      unless the mean sits on a tie and k is odd. */
  lemma MeanOctaveTransposed(g: seq<Cell>, k: int)
    requires |g| > 0
    requires !AtTie(g) || k % 2 == 0
    ensures MeanOctave(Transposed(g, k)) == MeanOctave(g) + k
  {
    var den := 12 * |g|;
    SumTransposed(g, k);
    RoundShift(Sum(g), k, den);
  }

  /** Octave-shift invariance: a pattern moved by k octaves normalises to the
      same rows, provided mean(note) / 12 is not exactly halfway between two
      integers or k is even. */
  lemma ShiftInvariant(g: seq<Cell>, k: int)
    requires |g| > 0
    requires !AtTie(g) || k % 2 == 0
    ensures ConvertNoteToNoteOctave(Transposed(g, k)) == ConvertNoteToNoteOctave(g)
  {
    var h := Transposed(g, k);
    MeanOctaveTransposed(g, k);
    var m := MeanOctave(g);
    var rh := ConvertNoteToNoteOctave(h).value;
    var rg := ConvertNoteToNoteOctave(g).value;
    forall i | 0 <= i < |g| ensures rh[i] == rg[i] {
      assert rh[i] == NormalizeCell(h[i], m + k);
      assert rg[i] == NormalizeCell(g[i], m);
      NormalizeCellShift(g[i], m, k);
    }
    assert rh == rg;
  }

  /** One step moved by k octaves reads the same against a mean moved by k. */
  lemma NormalizeCellShift(c: Cell, m: int, k: int)
    ensures NormalizeCell(c.(note := c.note + 12 * k), m + k) == NormalizeCell(c, m)
  {
    DivModShift(c.note - 36, k, 12);
    DivModShift(c.note, k, 12);
    assert c.note + 12 * k - 36 == c.note - 36 + k * 12;
  }

  /** At a tie an odd shift breaks the invariance: a single note 42 (mean
      octave 3.5, rounded to 4) reads one octave down, while 54 (mean 4.5,
      also rounded to 4) reads at the mean. */
  lemma OddShiftAtTieDiffers()
    ensures Transposed([Cell(42, 1, 0, 0)], 1) == [Cell(54, 1, 0, 0)]
    ensures AtTie([Cell(42, 1, 0, 0)])
    ensures ConvertNoteToNoteOctave([Cell(42, 1, 0, 0)]).value[0].down == 1
    ensures ConvertNoteToNoteOctave([Cell(54, 1, 0, 0)]).value[0].down == 0
  {
    assert Sum([Cell(42, 1, 0, 0)]) == 42 by {
      assert [Cell(42, 1, 0, 0)][..0] == [];
    }
    assert Sum([Cell(54, 1, 0, 0)]) == 54 by {
      assert [Cell(54, 1, 0, 0)][..0] == [];
    }
    assert MeanOctave([Cell(42, 1, 0, 0)]) == 4;
    assert MeanOctave([Cell(54, 1, 0, 0)]) == 4;
  }

  // ---------------------------------------------------------------------
  // The whole MIDI conversion

  /** convert_midi_file without the file reading and writing: walk the
      track on the default grid of 16 steps, then normalise the grid. */
  function ConvertTrack(track: seq<Message>): (r: Result<seq<Row<char>>>)
    ensures r.Err? <==> Walk(track, DefaultBeats).Err?
    ensures r.Ok? ==> |r.value| == DefaultBeats
  {
    match Walk(track, DefaultBeats)
    case Err(e) => Err(e)
    case Ok(g) => ConvertNoteToNoteOctave(g)
  }

  /** A converted track gives 16 canonical rows, each with a pitch symbol,
      up/down counts in 0..4 of which one is 0, and 0/1 flags. */
  lemma ConvertTrackCanonical(track: seq<Message>)
    requires ConvertTrack(track).Ok?
    ensures var rows := ConvertTrack(track).value;
      && |rows| == DefaultBeats
      && forall i :: 0 <= i < DefaultBeats ==>
        && rows[i].note in CharToNoteValue
        && 0 <= rows[i].up <= 4 && 0 <= rows[i].down <= 4
        && (rows[i].up == 0 || rows[i].down == 0)
        && rows[i].gate in {0, 1} && rows[i].slide in {0, 1} && rows[i].accent in {0, 1}
  {
    MidiProperties.WalkResolved(track, DefaultBeats);
  }
}
