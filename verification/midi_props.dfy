/** What the event walk of midi_to_pattern.py guarantees, proved of the
    specification in MidiWalk (and so, through MidiConvert.MidiToPattern,
    of the in-place walk). */
module MidiProperties {
  import opened Common
  import opened Pattern
  import opened MidiGrid
  import opened MidiWalk

  /** Every pitch a note message of the track names. */
  function PitchesOf(ms: seq<Message>): set<int>
  {
    if ms == [] then {}
    else (match ms[0]
          case NoteOn(p, _, _) => {p}
          case NoteOff(p, _) => {p}
          case _ => {}) + PitchesOf(ms[1..])
  }

  /** Note-ons minus note-offs in the track. */
  function NoteBalance(ms: seq<Message>): int
  {
    if ms == [] then 0
    else (match ms[0]
          case NoteOn(_, _, _) => 1
          case NoteOff(_, _) => -1
          case _ => 0) + NoteBalance(ms[1..])
  }

  /** The pitch a message names, if any. */
  predicate NamesOnly(m: Message, ps: set<int>)
  {
    match m
    case NoteOn(p, _, _) => p in ps
    case NoteOff(p, _) => p in ps
    case _ => true
  }

  /** A note-on keeps every flag 0/1 and writes only its own pitch or a
      pitch already in the grid. */
  lemma StartNoteKeeps(w: Walker, p: int, v: int, t: nat, ps: set<int>)
    requires FlagsBinary(w.grid) && PitchesFrom(w.grid, ps) && p in ps
    requires StartNote(w, p, v, t).Ok?
    ensures FlagsBinary(StartNote(w, p, v, t).value.grid)
    ensures PitchesFrom(StartNote(w, p, v, t).value.grid, ps)
  {
    var k := StepAt(w.ticks);
    var g := w.grid[k - 1 := w.grid[k - 1].(note := p, gate := 1,
                                             accent := if v > AccentVelocity then 1 else 0)];
    assert FlagsBinary(g) && PitchesFrom(g, ps);
  }

  /** Writing one cell whose flags are 0/1 and whose pitch is unset or in
      ps keeps both grid invariants. */
  lemma CellWriteKeeps(g: seq<Cell>, i: int, c: Cell, ps: set<int>)
    requires 0 <= i < |g| && FlagsBinary(g) && PitchesFrom(g, ps)
    requires c.gate in {0, 1} && c.accent in {0, 1} && c.slide in {0, 1}
    requires c.note == NoteDefault || c.note in ps
    ensures FlagsBinary(g[i := c]) && PitchesFrom(g[i := c], ps)
  {
  }

  /** The backward scan for a pitch in ps keeps both grid invariants. */
  lemma RunMarkedKeeps(g: seq<Cell>, k: int, p: int, ps: set<int>)
    requires 1 <= k <= |g| && FlagsBinary(g) && PitchesFrom(g, ps) && p in ps
    requires RunMarked(g, k, p).Ok?
    ensures FlagsBinary(RunMarked(g, k, p).value) && PitchesFrom(RunMarked(g, k, p).value, ps)
  {
    RunMarkedCells(g, k, p);
  }

  /** A note-off keeps every flag 0/1 and writes only its own pitch. */
  lemma EndNoteKeeps(w: Walker, p: int, t: nat, ps: set<int>)
    requires FlagsBinary(w.grid) && PitchesFrom(w.grid, ps) && p in ps
    requires EndNote(w, p, t).Ok?
    ensures FlagsBinary(EndNote(w, p, t).value.grid)
    ensures PitchesFrom(EndNote(w, p, t).value.grid, ps)
  {
    var w1 := if AtEnd(w.ticks, |w.grid|) then Tied(w) else w;
    if AtEnd(w.ticks, |w.grid|) {
      var n := |w.grid|;
      CellWriteKeeps(w.grid, n - 1, w.grid[n - 1].(slide := 1), ps);
    }
    var k := StepAt(w1.ticks);
    var c := w1.grid[k - 1];
    if c.note != p {
      var g := if w1.notesOn == 1 && t != 0 then w1.grid[k - 1 := c.(note := p)] else w1.grid;
      if w1.notesOn == 1 && t != 0 {
        CellWriteKeeps(w1.grid, k - 1, c.(note := p), ps);
      }
      RunMarkedKeeps(g, k, p, ps);
      assert EndNote(w, p, t).value.grid == RunMarked(g, k, p).value;
    } else if !w1.ended {
      CellWriteKeeps(w1.grid, k - 1, c.(slide := 0), ps);
      assert EndNote(w, p, t).value.grid == w1.grid[k - 1 := c.(slide := 0)];
    } else {
      assert EndNote(w, p, t).value.grid == w1.grid;
    }
  }

  /** One message keeps every flag 0/1, writes only its own pitch or pitches
      already in the grid, and moves the note count by one per note-on or
      note-off. */
  lemma AdvanceKeeps(w: Walker, m: Message, ps: set<int>)
    requires FlagsBinary(w.grid) && PitchesFrom(w.grid, ps) && NamesOnly(m, ps)
    requires Advance(w, m).Ok?
    ensures FlagsBinary(Advance(w, m).value.grid)
    ensures PitchesFrom(Advance(w, m).value.grid, ps)
    ensures Advance(w, m).value.notesOn == w.notesOn + NoteBalance([m])
  {
    assert [m][1..] == [];
    match m
    case NoteOn(p, v, t) =>
      assert Advance(w, m) == StartNote(w.(ticks := w.ticks + t), p, v, t);
      StartNoteKeeps(w.(ticks := w.ticks + t), p, v, t, ps);
    case NoteOff(p, t) =>
      assert Advance(w, m) == EndNote(w.(ticks := w.ticks + t), p, t);
      EndNoteKeeps(w.(ticks := w.ticks + t), p, t, ps);
    case _ =>
  }

  /** The same, over a whole run of messages. */
  lemma {:induction false} RunKeeps(w: Walker, ms: seq<Message>, ps: set<int>)
    requires FlagsBinary(w.grid) && PitchesFrom(w.grid, ps) && PitchesOf(ms) <= ps
    requires Run(w, ms).Ok?
    ensures |Run(w, ms).value.grid| == |w.grid|
    ensures FlagsBinary(Run(w, ms).value.grid)
    ensures PitchesFrom(Run(w, ms).value.grid, ps)
    ensures Run(w, ms).value.notesOn == w.notesOn + NoteBalance(ms)
    decreases |ms|
  {
    if ms != [] {
      assert NamesOnly(ms[0], ps);
      AdvanceKeeps(w, ms[0], ps);
      RunKeeps(Advance(w, ms[0]).value, ms[1..], ps);
    }
  }

  /** A converted grid has exactly n steps, no unset pitch, only pitches the
      track played, flags that are 0 or 1, and the track released as many
      notes as it struck. */
  lemma WalkResolved(track: seq<Message>, n: nat)
    requires Walk(track, n).Ok?
    ensures var g := Walk(track, n).value;
      && |g| == n
      && FlagsBinary(g)
      && (forall i :: 0 <= i < n ==> g[i].note != NoteDefault && g[i].note in PitchesOf(track))
      && NoteBalance(track) == 0
  {
    var ps := PitchesOf(track);
    RunKeeps(Start(n), track, ps);
    var w := Run(Start(n), track).value;
    FilledMeaning(w.grid);
    var g := Walk(track, n).value;
    forall i | 0 <= i < n ensures g[i].note in ps {
      if w.grid[i].note == NoteDefault {
        var j :| 0 <= j < i && w.grid[j].note != NoteDefault && g[i].note == w.grid[j].note;
      }
    }
  }

  /** A note-off exactly at the end of the pattern (on_beat == n + 1) ties
      the last step: it slides, the walk records the tie and the position is
      pinned to n + 0.5 (step n), whatever the scan then does. When step n
      already holds the pitch, the slide is the only change to the grid. */
  lemma TieSlidesLastStep(w: Walker, p: int, t: nat)
    requires AtEnd(w.ticks, |w.grid|)
    requires EndNote(w, p, t).Ok?
    ensures var r := EndNote(w, p, t).value;
      && |w.grid| > 0
      && r.grid[|w.grid| - 1].slide == 1
      && r.ended
      && StepAt(r.ticks) == |w.grid|
      && r.notesOn == w.notesOn - 1
      && (w.grid[|w.grid| - 1].note == p ==>
            r.grid == w.grid[|w.grid| - 1 := w.grid[|w.grid| - 1].(slide := 1)])
  {
    var n := |w.grid|;
    var w1 := Tied(w);
    assert StepAt(w1.ticks) == n;
    if w1.grid[n - 1].note != p {
      var g := if w1.notesOn == 1 && t != 0 then w1.grid[n - 1 := w1.grid[n - 1].(note := p)]
               else w1.grid;
      RunMarkedMeaning(g, n, p);
    }
  }

  /** A note-off inside the step its own note started in, away from the tie,
      clears that step's slide unless the pattern already ended on a tie. */
  lemma SameStepReleaseClearsSlide(w: Walker, p: int, t: nat)
    requires !AtEnd(w.ticks, |w.grid|)
    requires StepAt(w.ticks) <= |w.grid| && w.grid[StepAt(w.ticks) - 1].note == p
    ensures EndNote(w, p, t).Ok?
    ensures EndNote(w, p, t).value.grid[StepAt(w.ticks) - 1].slide == if w.ended then w.grid[StepAt(w.ticks) - 1].slide else 0
    ensures var k := StepAt(w.ticks); var r := EndNote(w, p, t).value;
      && |r.grid| == |w.grid|
      && r.grid[k - 1] == w.grid[k - 1].(slide := if w.ended then w.grid[k - 1].slide else 0)
      && (forall i :: 0 <= i < |w.grid| && i != k - 1 ==> r.grid[i] == w.grid[i])
      && r.ticks == w.ticks && r.ended == w.ended && r.notesOn == w.notesOn - 1
  {
  }

  /** A note-off whose step lies past the grid, away from the tie over the
      end, reads a step that does not exist and fails. */
  lemma NoteOffPastGrid(w: Walker, p: int, t: nat)
    requires !AtEnd(w.ticks + t, |w.grid|) && StepAt(w.ticks + t) > |w.grid|
    ensures Advance(w, NoteOff(p, t)) == Err(MissingStep)
  {
  }

  /** A note-on at step k = int(on_beat) writes the pitch, opens the gate and
      accents a velocity above 126; the sounding count goes up by one. */
  lemma NoteOnWritesAttack(w: Walker, p: int, v: int, t: nat)
    requires StartNote(w, p, v, t).Ok?
    ensures var k := StepAt(w.ticks); var r := StartNote(w, p, v, t).value;
      && 1 <= k <= |w.grid|
      && r.grid[k - 1] == Cell(p, 1, if v > AccentVelocity then 1 else 0, w.grid[k - 1].slide)
      && r.notesOn == w.notesOn + 1
      && r.ticks == w.ticks && r.ended == w.ended
  {
  }

  /** A note-on that lands inside the pattern writes its attack, then
      backfills only when it is the only sounding note after a rest. */
  lemma StartNoteUnfold(w: Walker, p: int, v: int, t: nat, k: int, g: seq<Cell>)
    requires k == StepAt(w.ticks) && k <= |w.grid|
    requires g == w.grid[k - 1 := w.grid[k - 1].(note := p, gate := 1,
                                                 accent := if v > AccentVelocity then 1 else 0)]
    ensures StartNote(w, p, v, t) ==
      if t > TimePerBeat / 2 && w.notesOn == 0 then
        (match RestFilled(g, k, t / TimePerBeat + 1, p)
         case Err(e) => Err(e)
         case Ok(h) => Ok(w.(notesOn := 1, grid := h)))
      else Ok(w.(notesOn := w.notesOn + 1, grid := g))
  {
  }

  /** A note-off whose step does not hold its pitch ends in the backward
      scan, after the optional write of the pitch at step k. */
  lemma EndNoteUnfold(w: Walker, p: int, t: nat, seen: Walker, k: int, g: seq<Cell>)
    requires |w.grid| > 0 && seen == TieChecked(w) && k == StepAt(seen.ticks)
    requires k <= |w.grid| && seen.grid[k - 1].note != p
    requires g == if w.notesOn == 1 && t != 0 then seen.grid[k - 1 := seen.grid[k - 1].(note := p)]
                  else seen.grid
    ensures EndNote(w, p, t) == match RunMarked(g, k, p)
      case Err(e) => Err(e)
      case Ok(h) => Ok(seen.(notesOn := seen.notesOn - 1, grid := h))
  {
  }

  /** The rest backfill after the attack at step k was written: it reads
      the grid as it was before the attack, since the attack step is not
      rested. */
  lemma RestAfterAttack(g0: seq<Cell>, k: int, len: int, p: int, c: Cell)
    requires 1 <= k <= |g0| && len >= 1
    ensures var r := RestFilled(g0[k - 1 := c], k, len, p);
      && (r.Err? <==> (k - len < 0 ||
            exists i :: 0 <= i < |g0| && InRest(i + 1, k, len) && g0[i].gate != 0))
      && (r.Ok? ==> r.value[k - 1] == c)
      && (r.Ok? ==> forall i :: 0 <= i < |g0| && i != k - 1 && !InRest(i + 1, k, len) ==>
            r.value[i] == g0[i])
      && (r.Ok? ==> forall i :: 0 <= i < |g0| && InRest(i + 1, k, len) ==>
            r.value[i] == g0[i].(note := if k == len then p else g0[k - len - 1].note))
  {
    var g := g0[k - 1 := c];
    assert forall i :: 0 <= i < |g0| && InRest(i + 1, k, len) ==> g[i] == g0[i];
    if len > 1 && k - len >= 0 && k != len {
      assert g[k - len - 1] == g0[k - len - 1];
    }
  }

  /** A note-on of pitch p with delta time t, at step k = int(on_beat):
      it fails when step k lies past the pattern; when it is the only
      sounding note and t exceeds half a step, the rest of t div 24 whole
      steps before it is backfilled, failing exactly when the rest reaches
      before step 1 or covers an open gate, and each rested step keeps its
      flags and takes the pitch of the step before the rest (or p when the
      rest starts the pattern); every step other than k and the rested
      ones stays as it was. */
  lemma NoteOnRest(w: Walker, p: int, v: int, t: nat, k: int, len: int, r: Result<Walker>)
    requires k == StepAt(w.ticks + t) && len == t / TimePerBeat + 1
    requires r == Advance(w, NoteOn(p, v, t))
    ensures var rest := t > TimePerBeat / 2 && w.notesOn == 0;
      r.Err? <==> (k > |w.grid| || (rest && (k - len < 0 ||
        exists i :: 0 <= i < |w.grid| && InRest(i + 1, k, len) && w.grid[i].gate != 0)))
    ensures r.Ok? ==> forall i :: (0 <= i < |w.grid| && i != k - 1
      && !(t > TimePerBeat / 2 && w.notesOn == 0 && InRest(i + 1, k, len))) ==>
      r.value.grid[i] == w.grid[i]
    ensures r.Ok? && t > TimePerBeat / 2 && w.notesOn == 0 ==>
      forall i :: 0 <= i < |w.grid| && InRest(i + 1, k, len) ==>
        r.value.grid[i] == w.grid[i].(note := if k == len then p else w.grid[k - len - 1].note)
  {
    var n := |w.grid|;
    var w1 := w.(ticks := w.ticks + t);
    assert r == StartNote(w1, p, v, t);
    if k <= n {
      var c := w.grid[k - 1].(note := p, gate := 1, accent := if v > AccentVelocity then 1 else 0);
      var g := w.grid[k - 1 := c];
      StartNoteUnfold(w1, p, v, t, k, g);
      if t > TimePerBeat / 2 && w.notesOn == 0 {
        RestAfterAttack(w.grid, k, len, p, c);
      }
    } else {
      assert r == Err(MissingStep);
    }
  }

  /** The backward scan after step k alone was rewritten: it reads the
      steps before k as they were. */
  lemma ScanAfterWrite(g0: seq<Cell>, g: seq<Cell>, k: int, p: int)
    requires 1 <= k <= |g0| == |g|
    requires forall i :: 0 <= i < |g| && i != k - 1 ==> g[i] == g0[i]
    ensures RunMarked(g, k, p).Err? <==> forall i :: 0 <= i < k - 1 ==> g0[i].note != p
    ensures RunMarked(g, k, p).Ok? ==> RunMarked(g, k, p).value[k - 1] == g[k - 1]
    ensures RunMarked(g, k, p).Ok? ==> exists j :: (0 <= j < k - 1 && g0[j].note == p
      && (forall i :: j < i < k - 1 ==> g0[i].note != p)
      && (forall i :: j <= i < k - 1 ==> RunMarked(g, k, p).value[i] == g0[i].(note := p, slide := 1))
      && (forall i :: 0 <= i < |g| && !(j <= i <= k - 1) ==> RunMarked(g, k, p).value[i] == g0[i]))
  {
    if RunMarked(g, k, p).Ok? {
      RunMarkedMeaning(g, k, p);
    }
  }

  /** The walk state after a scan of grid g that ends note p at step k of
      the state seen. */
  lemma ScanOutcome(seen: Walker, g: seq<Cell>, k: int, p: int, r: Result<Walker>)
    requires 1 <= k <= |seen.grid| == |g|
    requires forall i :: 0 <= i < |g| && i != k - 1 ==> g[i] == seen.grid[i]
    requires r == match RunMarked(g, k, p)
      case Err(e) => Err(e)
      case Ok(h) => Ok(seen.(notesOn := seen.notesOn - 1, grid := h))
    ensures r.Err? <==> forall i :: 0 <= i < k - 1 ==> seen.grid[i].note != p
    ensures r.Ok? ==> r.value.grid[k - 1] == g[k - 1]
    ensures r.Ok? ==> exists j :: (0 <= j < k - 1 && seen.grid[j].note == p
      && (forall i :: j < i < k - 1 ==> seen.grid[i].note != p)
      && (forall i :: j <= i < k - 1 ==> r.value.grid[i] == seen.grid[i].(note := p, slide := 1))
      && (forall i :: 0 <= i < |seen.grid| && !(j <= i <= k - 1) ==> r.value.grid[i] == seen.grid[i]))
    ensures r.Ok? ==> (r.value.notesOn == seen.notesOn - 1 && r.value.ticks == seen.ticks
      && r.value.ended == seen.ended)
  {
    ScanAfterWrite(seen.grid, g, k, p);
  }

  /** A note-off that does not find its pitch at its own step is the scan
      back over the grid with the attack step possibly pre-written. */
  lemma NoteOffScans(w: Walker, p: int, t: nat, seen: Walker, k: int, g: seq<Cell>,
                     r: Result<Walker>)
    requires |w.grid| > 0
    requires seen == TieChecked(w.(ticks := w.ticks + t)) && k == StepAt(seen.ticks)
    requires r == Advance(w, NoteOff(p, t))
    requires k <= |w.grid| && seen.grid[k - 1].note != p
    requires g == if w.notesOn == 1 && t != 0 then seen.grid[k - 1 := seen.grid[k - 1].(note := p)]
                  else seen.grid
    ensures r == match RunMarked(g, k, p)
      case Err(e) => Err(e)
      case Ok(h) => Ok(seen.(notesOn := seen.notesOn - 1, grid := h))
    ensures seen.notesOn == w.notesOn
  {
    var w1 := w.(ticks := w.ticks + t);
    assert r == EndNote(w1, p, t);
    EndNoteUnfold(w1, p, t, seen, k, g);
  }

  /** A note-off of pitch p with delta time t, at the step k it lands on
      (step n after the tie over the end), when step k does not hold p:
      step k first takes p exactly when p was the only sounding note and t
      is not 0; then every step from the nearest earlier step holding p up
      to k - 1 takes p and slide 1, every other step stays, and the
      note-off fails exactly when no earlier step holds p. */
  lemma NoteOffRun(w: Walker, p: int, t: nat, seen: Walker, k: int, r: Result<Walker>)
    requires |w.grid| > 0
    requires seen == TieChecked(w.(ticks := w.ticks + t)) && k == StepAt(seen.ticks)
    requires r == Advance(w, NoteOff(p, t))
    requires k <= |w.grid| && seen.grid[k - 1].note != p
    ensures r.Err? <==> forall i :: 0 <= i < k - 1 ==> seen.grid[i].note != p
    ensures r.Ok? ==> (r.value.grid[k - 1] ==
      if w.notesOn == 1 && t != 0 then seen.grid[k - 1].(note := p) else seen.grid[k - 1])
    ensures r.Ok? ==> exists j :: (0 <= j < k - 1 && seen.grid[j].note == p
      && (forall i :: j < i < k - 1 ==> seen.grid[i].note != p)
      && (forall i :: j <= i < k - 1 ==> r.value.grid[i] == seen.grid[i].(note := p, slide := 1))
      && (forall i :: 0 <= i < |seen.grid| && !(j <= i <= k - 1) ==> r.value.grid[i] == seen.grid[i]))
    ensures r.Ok? ==> (r.value.notesOn == w.notesOn - 1 && r.value.ticks == seen.ticks
      && r.value.ended == seen.ended)
  {
    var g0 := seen.grid;
    var g := if w.notesOn == 1 && t != 0 then g0[k - 1 := g0[k - 1].(note := p)] else g0;
    assert g[k - 1] == if w.notesOn == 1 && t != 0 then g0[k - 1].(note := p) else g0[k - 1];
    NoteOffScans(w, p, t, seen, k, g, r);
    ScanOutcome(seen, g, k, p, r);
  }

  /** Meta messages leave the state alone (their time is dropped); every
      other message moves the position by its delta time, except a tie
      over the end, which pins it to n + 0.5 steps. */
  lemma AdvancePosition(w: Walker, m: Message)
    requires Advance(w, m).Ok?
    ensures m.Meta? ==> Advance(w, m).value == w
    ensures !m.Meta? && !(m.NoteOff? && AtEnd(w.ticks + m.time, |w.grid|)) ==>
      Advance(w, m).value.ticks == w.ticks + m.time
    ensures m.NoteOff? && AtEnd(w.ticks + m.time, |w.grid|) ==>
      Advance(w, m).value.ticks == TimePerBeat * |w.grid| - TimePerBeat / 2
  {
  }
}
