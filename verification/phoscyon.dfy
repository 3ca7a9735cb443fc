/** phoscyon_to_pattern.py: a Phoscyon step table (already read from its
    XML attributes) becomes canonical rows with pitch-class numbers. */
module Phoscyon {
  import opened Common
  import opened Pattern

  /** One step element: its note, octaveDown, octaveUp, gate, slide and
      accent attributes as integers. */
  datatype PhosStep = PhosStep(note: int, octaveDown: int, octaveUp: int,
                               gate: int, slide: int, accent: int)

  /** The octave buttons after cancelling: both pressed (or both released)
      counts as neither. */
  function Buttons(s: PhosStep): (r: (int, int))
    ensures r.0 == r.1 <==> r == (0, 0)
    ensures s.octaveDown != s.octaveUp ==> r == (s.octaveDown, s.octaveUp)
  {
    if s.octaveDown == s.octaveUp then (0, 0) else (s.octaveDown, s.octaveUp)
  }

  /** The absolute pitch a row stands for. */
  function Pitch(note: int, up: int, down: int): int
  {
    note + 12 * (up - down)
  }

  /** One step: cancel equal octave buttons, then fold the note into 0..11,
      counting the octaves taken off a negative note into down, and one
      octave (however many were taken off) into up for a note of 12 or more. */
  function FoldStep(s: PhosStep): (r: Row<int>)
    ensures IsPitchClass(r.note) && (r.note - s.note) % 12 == 0
    ensures r.gate == s.gate && r.slide == s.slide && r.accent == s.accent
  {
    var (down, up) := Buttons(s);
    if s.note < 0 then
      var nOct := (-s.note + 11) / 12;   // ceil(|note| / 12)
      Row(s.note + 12 * nOct, up, down + nOct, s.gate, s.slide, s.accent)
    else if s.note >= 12 then
      var nOct := s.note / 12;           // floor(|note| / 12)
      Row(s.note - 12 * nOct, up + 1, down, s.gate, s.slide, s.accent)
    else Row(s.note, up, down, s.gate, s.slide, s.accent)
  }

  /** How the octave counts move: a negative note adds to down the least
      number of octaves that lifts it to 0 or above, a note of 12 or more
      adds exactly one to up, and a note in 0..11 keeps note and counts. */
  lemma FoldStepOctaves(s: PhosStep)
    ensures var r := FoldStep(s); var (down, up) := Buttons(s);
      && (s.note < 0 ==> (r.up == up && r.down > down
            && s.note + 12 * (r.down - down) >= 0 && s.note + 12 * (r.down - down - 1) < 0))
      && (s.note >= 12 ==> r.up == up + 1 && r.down == down)
      && (0 <= s.note < 12 ==> r.note == s.note && r.up == up && r.down == down)
  {
  }

  /** The row keeps the step's absolute pitch exactly when the note is below
      24: a note two or more octaves up loses all but one of them. */
  lemma FoldKeepsPitchIff(s: PhosStep)
    ensures var r := FoldStep(s); var (down, up) := Buttons(s);
      Pitch(r.note, r.up, r.down) == Pitch(s.note, up, down) <==> s.note < 24
  {
  }

  /** process_phoscyon_pattern: step i fills row i + 1 of a table laid out
      in advance; a table with no steps never gets its up and down columns,
      so selecting the output columns fails. */
  method ProcessPhoscyonPattern(steps: seq<PhosStep>) returns (r: Result<seq<Row<int>>>)
    ensures r.Err? <==> |steps| == 0
    ensures r.Ok? ==> |r.value| == |steps|
    ensures r.Ok? ==> forall i :: 0 <= i < |steps| ==> r.value[i] == FoldStep(steps[i])
  {
    var pat := new Row<int>[|steps|](_ => Row(NoteDefault, 0, 0, GateDefault, SlideDefault, AccentDefault));
    var i := 0;
    while i < |steps|
      invariant 0 <= i <= |steps|
      invariant forall j :: 0 <= j < i ==> pat[j] == FoldStep(steps[j])
    {
      var step := steps[i];
      var note, down, up := step.note, step.octaveDown, step.octaveUp;
      if down == up {
        down, up := 0, 0;
      }
      if note < 0 {
        var nOct := (-note + 11) / 12;
        note := note + 12 * nOct;
        down := down + nOct;
      } else if note >= 12 {
        var nOct := note / 12;
        note := note - 12 * nOct;
        up := up + 1;
      }
      pat[i] := Row(note, up, down, step.gate, step.slide, step.accent);
      i := i + 1;
    }
    if |steps| == 0 {
      return Err(MissingColumns);
    }
    r := Ok(pat[..]);
  }
}
