/** Worked conversions of short tracks on small grids, as the code of
    midi_to_pattern.py computes them (24 ticks per step). */
module MidiExamples {
  import opened Common
  import opened Pattern
  import opened MidiGrid
  import opened MidiWalk

  /** A grid whose pitches are all p or unset, with step 1 set, fills every
      step with p. */
  lemma FillsWith(g: seq<Cell>, p: int)
    requires |g| > 0 && g[0].note == p && p != NoteDefault
    requires forall j :: 0 <= j < |g| ==> g[j].note == p || g[j].note == NoteDefault
    ensures forall i :: 0 <= i < |g| ==> LastSet(g, i) == p
  {
    forall i | 0 <= i < |g| ensures LastSet(g, i) == p {
      LastSetNearest(g, i);
      assert g[0].note != NoteDefault;
    }
  }

  /** The first note-on of a track, at time 0, strikes step 1. */
  lemma StruckFirst(p: int)
    ensures Advance(Start(4), NoteOn(p, 100, 0))
      == Ok(Walker(0, 1, false, [Cell(p, 1, 0, 0), Blank, Blank, Blank]))
  {
    var g := EmptyGrid(4);
    assert g == [Blank, Blank, Blank, Blank];
    assert StepAt(0) == 1;
    var g1 := g[0 := g[0].(note := p, gate := 1, accent := 0)];
    assert g1 == [Cell(p, 1, 0, 0), Blank, Blank, Blank];
    assert StartNote(Start(4), p, 100, 0) == Ok(Walker(0, 1, false, g1));
  }

  /** A one-step note: step 1 is struck, steps 2..4 are forward filled with
      its pitch and a closed gate.  Because the note-off lands exactly on the
      boundary of step 2, the backward scan reaches step 1 and leaves it
      sliding. */
  lemma OneStepNote()
    ensures Walk([NoteOn(36, 100, 0), NoteOff(36, 24)], 4)
      == Ok([Cell(36, 1, 0, 1)] + seq(3, _ => Cell(36, 0, 0, 0)))
  {
    var ms := [NoteOn(36, 100, 0), NoteOff(36, 24)];
    var w1 := Walker(0, 1, false, [Cell(36, 1, 0, 0), Blank, Blank, Blank]);
    var g3 := [Cell(36, 1, 0, 1), Cell(36, 0, 0, 0), Blank, Blank];
    StruckFirst(36);
    OneStepReleased();
    RunUnfold(Start(4), ms);
    RunUnfold(w1, ms[1..]);
    assert ms[1..][1..] == [];
    OneStepFilled();
  }

  /** The forward fill that ends OneStepNote. */
  lemma OneStepFilled()
    ensures Filled([Cell(36, 1, 0, 1), Cell(36, 0, 0, 0), Blank, Blank]) == Ok([Cell(36, 1, 0, 1)] + seq(3, _ => Cell(36, 0, 0, 0)))
  {
    var g3 := [Cell(36, 1, 0, 1), Cell(36, 0, 0, 0), Blank, Blank];
    FillsWith(g3, 36);
    var h := Filled(g3).value;
    assert h[0] == Cell(36, 1, 0, 1) && h[1] == Cell(36, 0, 0, 0);
    assert h[2] == Cell(36, 0, 0, 0) && h[3] == Cell(36, 0, 0, 0);
    assert h == [Cell(36, 1, 0, 1)] + seq(3, _ => Cell(36, 0, 0, 0));
  }

  /** The note-off of OneStepNote, on the boundary of step 2. */
  lemma OneStepReleased()
    ensures Advance(Walker(0, 1, false, [Cell(36, 1, 0, 0), Blank, Blank, Blank]), NoteOff(36, 24))
      == Ok(Walker(24, 0, false, [Cell(36, 1, 0, 1), Cell(36, 0, 0, 0), Blank, Blank]))
  {
    var g1 := [Cell(36, 1, 0, 0), Blank, Blank, Blank];
    var g2 := g1[1 := g1[1].(note := 36)];
    assert g2 == [Cell(36, 1, 0, 0), Cell(36, 0, 0, 0), Blank, Blank];
    assert StepAt(24) == 2;
    assert RunStart(g2, 2, 36) == Some(1);
    var g3 := [Cell(36, 1, 0, 1), Cell(36, 0, 0, 0), Blank, Blank];
    var r := RunMarked(g2, 2, 36).value;
    assert r[0] == g3[0] && r[1] == g3[1] && r[2] == g3[2] && r[3] == g3[3];
    assert |r| == 4 && r == g3;
    assert EndNote(Walker(24, 1, false, g1), 36, 24) == Ok(Walker(24, 0, false, g3));
  }

  /** A two-step note: step 1 is struck and step 2 slides into the same
      pitch; the scan also marks step 1 as sliding. */
  lemma TwoStepLegato()
    ensures Walk([NoteOn(40, 100, 0), NoteOff(40, 48)], 4)
      == Ok([Cell(40, 1, 0, 1), Cell(40, 0, 0, 1)] + seq(2, _ => Cell(40, 0, 0, 0)))
  {
    var ms := [NoteOn(40, 100, 0), NoteOff(40, 48)];
    var w1 := Walker(0, 1, false, [Cell(40, 1, 0, 0), Blank, Blank, Blank]);
    var g3 := [Cell(40, 1, 0, 1), Cell(40, 0, 0, 1), Cell(40, 0, 0, 0), Blank];
    StruckFirst(40);
    TwoStepReleased();
    RunUnfold(Start(4), ms);
    RunUnfold(w1, ms[1..]);
    assert ms[1..][1..] == [];
    TwoStepFilled();
  }

  /** The forward fill that ends TwoStepLegato. */
  lemma TwoStepFilled()
    ensures Filled([Cell(40, 1, 0, 1), Cell(40, 0, 0, 1), Cell(40, 0, 0, 0), Blank]) == Ok([Cell(40, 1, 0, 1), Cell(40, 0, 0, 1)] + seq(2, _ => Cell(40, 0, 0, 0)))
  {
    var g3 := [Cell(40, 1, 0, 1), Cell(40, 0, 0, 1), Cell(40, 0, 0, 0), Blank];
    FillsWith(g3, 40);
    var h := Filled(g3).value;
    assert h[0] == Cell(40, 1, 0, 1) && h[1] == Cell(40, 0, 0, 1);
    assert h[2] == Cell(40, 0, 0, 0) && h[3] == Cell(40, 0, 0, 0);
    assert h == [Cell(40, 1, 0, 1), Cell(40, 0, 0, 1)] + seq(2, _ => Cell(40, 0, 0, 0));
  }

  /** The note-off of TwoStepLegato, on the boundary of step 3. */
  lemma TwoStepReleased()
    ensures Advance(Walker(0, 1, false, [Cell(40, 1, 0, 0), Blank, Blank, Blank]), NoteOff(40, 48))
      == Ok(Walker(48, 0, false, [Cell(40, 1, 0, 1), Cell(40, 0, 0, 1), Cell(40, 0, 0, 0), Blank]))
  {
    var g1 := [Cell(40, 1, 0, 0), Blank, Blank, Blank];
    var g2 := g1[2 := g1[2].(note := 40)];
    assert g2 == [Cell(40, 1, 0, 0), Blank, Cell(40, 0, 0, 0), Blank];
    assert StepAt(48) == 3;
    assert RunStart(g2, 2, 40) == Some(1);
    assert RunStart(g2, 3, 40) == Some(1);
    var g3 := [Cell(40, 1, 0, 1), Cell(40, 0, 0, 1), Cell(40, 0, 0, 0), Blank];
    var r := RunMarked(g2, 3, 40).value;
    assert r[0] == g3[0] && r[1] == g3[1] && r[2] == g3[2] && r[3] == g3[3];
    assert |r| == 4 && r == g3;
    assert EndNote(Walker(48, 1, false, g1), 40, 48) == Ok(Walker(48, 0, false, g3));
  }

  /** A rest of three steps before a second note: steps 2..4 take the
      earlier pitch with closed gates, and since the second note is never
      released the conversion fails its final note count (six-step grid). */
  lemma RestBackfill()
    ensures Run(Start(6), [NoteOn(36, 100, 0), NoteOff(36, 24), NoteOn(38, 127, 72)])
      == Ok(Walker(96, 1, false,
                   [Cell(36, 1, 0, 1), Cell(36, 0, 0, 0), Cell(36, 0, 0, 0), Cell(36, 0, 0, 0),
                    Cell(38, 1, 1, 0), Blank]))
    ensures Walk([NoteOn(36, 100, 0), NoteOff(36, 24), NoteOn(38, 127, 72)], 6)
      == Err(UnbalancedNotes)
  {
    var ms := [NoteOn(36, 100, 0), NoteOff(36, 24), NoteOn(38, 127, 72)];
    var w1 := Walker(0, 1, false, [Cell(36, 1, 0, 0), Blank, Blank, Blank, Blank, Blank]);
    var w2 := Walker(24, 0, false, [Cell(36, 1, 0, 1), Cell(36, 0, 0, 0), Blank, Blank, Blank, Blank]);
    BackfillStruck();
    BackfillReleased();
    BackfillRested();
    RunUnfold(Start(6), ms);
    RunUnfold(w1, ms[1..]);
    RunUnfold(w2, ms[2..]);
    assert ms[1..][1..] == ms[2..] && ms[2..][1..] == [];
  }

  /** The first message of RestBackfill strikes step 1. */
  lemma BackfillStruck()
    ensures Advance(Start(6), NoteOn(36, 100, 0))
      == Ok(Walker(0, 1, false, [Cell(36, 1, 0, 0), Blank, Blank, Blank, Blank, Blank]))
  {
    var g := EmptyGrid(6);
    assert g == [Blank, Blank, Blank, Blank, Blank, Blank];
    assert StepAt(0) == 1;
    var g1 := g[0 := g[0].(note := 36, gate := 1, accent := 0)];
    assert g1 == [Cell(36, 1, 0, 0), Blank, Blank, Blank, Blank, Blank];
    assert StartNote(Start(6), 36, 100, 0) == Ok(Walker(0, 1, false, g1));
  }

  /** The second message of RestBackfill releases the note on the boundary
      of step 2, which marks step 1 as sliding. */
  lemma BackfillReleased()
    ensures Advance(Walker(0, 1, false, [Cell(36, 1, 0, 0), Blank, Blank, Blank, Blank, Blank]),
                    NoteOff(36, 24))
      == Ok(Walker(24, 0, false, [Cell(36, 1, 0, 1), Cell(36, 0, 0, 0), Blank, Blank, Blank, Blank]))
  {
    var g1 := [Cell(36, 1, 0, 0), Blank, Blank, Blank, Blank, Blank];
    var g2 := g1[1 := g1[1].(note := 36)];
    assert g2 == [Cell(36, 1, 0, 0), Cell(36, 0, 0, 0), Blank, Blank, Blank, Blank];
    assert StepAt(24) == 2;
    assert RunStart(g2, 2, 36) == Some(1);
    var g3 := [Cell(36, 1, 0, 1), Cell(36, 0, 0, 0), Blank, Blank, Blank, Blank];
    var r := RunMarked(g2, 2, 36).value;
    assert r[0] == g3[0] && r[1] == g3[1] && r[2] == g3[2];
    assert r[3] == g3[3] && r[4] == g3[4] && r[5] == g3[5];
    assert |r| == 6 && r == g3;
    assert EndNote(Walker(24, 1, false, g1), 36, 24) == Ok(Walker(24, 0, false, g3));
  }

  /** The third message of RestBackfill strikes step 5 after a rest of three
      steps, which take the pitch of step 1. */
  lemma BackfillRested()
    ensures Advance(Walker(24, 0, false, [Cell(36, 1, 0, 1), Cell(36, 0, 0, 0), Blank, Blank, Blank, Blank]),
                    NoteOn(38, 127, 72))
      == Ok(Walker(96, 1, false,
                   [Cell(36, 1, 0, 1), Cell(36, 0, 0, 0), Cell(36, 0, 0, 0), Cell(36, 0, 0, 0),
                    Cell(38, 1, 1, 0), Blank]))
  {
    var g3 := [Cell(36, 1, 0, 1), Cell(36, 0, 0, 0), Blank, Blank, Blank, Blank];
    var g4 := g3[4 := g3[4].(note := 38, gate := 1, accent := 1)];
    assert g4 == [Cell(36, 1, 0, 1), Cell(36, 0, 0, 0), Blank, Blank, Cell(38, 1, 1, 0), Blank];
    assert StepAt(96) == 5 && 72 / TimePerBeat + 1 == 4;
    var g5 := [Cell(36, 1, 0, 1), Cell(36, 0, 0, 0), Cell(36, 0, 0, 0), Cell(36, 0, 0, 0),
               Cell(38, 1, 1, 0), Blank];
    assert forall i :: 0 <= i < 6 && g4[i].gate != 0 ==> i == 0 || i == 4;
    var r := RestFilled(g4, 5, 4, 38).value;
    assert r[0] == g5[0] && r[1] == g5[1] && r[2] == g5[2];
    assert r[3] == g5[3] && r[4] == g5[4] && r[5] == g5[5];
    assert |r| == 6 && r == g5;
    assert StartNote(Walker(96, 0, false, g3), 38, 127, 72) == Ok(Walker(96, 1, false, g5));
  }
}
