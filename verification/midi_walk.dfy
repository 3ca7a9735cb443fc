/** The event walk of midi_to_pattern.py as a specification over values:
    the state threaded through the message loop, the effect of one message,
    and the whole conversion of a track into a resolved step grid.

    Position is kept exactly in integer ticks: the source's beat position
    on_beat is 1 + ticks / 24, so the step it names, int(on_beat), is
    1 + ticks div 24. */
module MidiWalk {
  import opened Common
  import opened Pattern
  import opened MidiGrid

  /** The grid length midi_to_pattern uses when its caller gives none. */
  const DefaultBeats: nat := 16
  /** Ticks per step. */
  const TimePerBeat: nat := 24
  /** A velocity above this is accented. */
  const AccentVelocity: int := 126

  /** One message of the (single) track, already decoded; times are delta
      ticks since the previous message. */
  datatype Message =
    | Meta(time: nat)                                   // skipped; its delta time is dropped
    | NoteOn(note: int, velocity: int, time: nat)
    | NoteOff(note: int, time: nat)
    | Channel(time: nat)                                // any other channel message

  /** The loop state: ticks since the start (on_beat), notes sounding
      (notes_on), whether the last note was tied over the end (ended), and
      the grid. */
  datatype Walker = Walker(ticks: nat, notesOn: int, ended: bool, grid: seq<Cell>)

  function Start(n: nat): Walker
  {
    Walker(0, 0, false, EmptyGrid(n))
  }

  /** The step the position falls in: int(on_beat). */
  function StepAt(ticks: nat): nat
  {
    1 + ticks / TimePerBeat
  }

  /** A note-on of pitch p, whose delta time t has already been added. */
  function StartNote(w: Walker, p: int, v: int, t: nat): (r: Result<Walker>)
    ensures r.Ok? ==> |r.value.grid| == |w.grid|
  {
    var k := StepAt(w.ticks);
    if k > |w.grid| then Err(MissingStep)
    else
      var on := w.notesOn + 1;
      var g := w.grid[k - 1 := w.grid[k - 1].(note := p, gate := 1,
                                                accent := if v > AccentVelocity then 1 else 0)];
      if t > TimePerBeat / 2 && on == 1 then
        match RestFilled(g, k, t / TimePerBeat + 1, p)
        case Err(e) => Err(e)
        case Ok(h) => Ok(w.(notesOn := on, grid := h))
      else Ok(w.(notesOn := on, grid := g))
  }

  /** Whether a note-off at this position is the tie over the end of an
      n-step pattern: on_beat == n + 1. */
  predicate AtEnd(ticks: nat, n: nat)
  {
    ticks == TimePerBeat * n
  }

  /** The tie over the end: the last step slides, the position is pinned to
      n + 0.5 and the walk remembers it ended on a tie. */
  function Tied(w: Walker): (r: Walker)
    requires |w.grid| > 0
    ensures StepAt(r.ticks) == |w.grid| && r.ended && r.notesOn == w.notesOn
    ensures |r.grid| == |w.grid| && r.grid[|w.grid| - 1] == w.grid[|w.grid| - 1].(slide := 1)
    ensures forall i :: 0 <= i < |w.grid| - 1 ==> r.grid[i] == w.grid[i]
  {
    var n := |w.grid|;
    Walker(TimePerBeat * n - TimePerBeat / 2, w.notesOn, true,
           w.grid[n - 1 := w.grid[n - 1].(slide := 1)])
  }

  /** The state a note-off acts on: tied over the end when it lands there. */
  function TieChecked(w: Walker): (r: Walker)
    requires |w.grid| > 0 || !AtEnd(w.ticks, |w.grid|)
    ensures |r.grid| == |w.grid| && r.notesOn == w.notesOn
    ensures AtEnd(w.ticks, |w.grid|) ==> r.ended && StepAt(r.ticks) == |w.grid|
    ensures !AtEnd(w.ticks, |w.grid|) ==> r == w
  {
    if AtEnd(w.ticks, |w.grid|) then Tied(w) else w
  }

  /** A note-off of pitch p, whose delta time t has already been added. */
  function EndNote(w: Walker, p: int, t: nat): (r: Result<Walker>)
    ensures r.Ok? ==> |r.value.grid| == |w.grid| && r.value.notesOn == w.notesOn - 1
  {
    if AtEnd(w.ticks, |w.grid|) && |w.grid| == 0 then Err(MissingStep)
    else
      var w1 := TieChecked(w);
      var k := StepAt(w1.ticks);
      if k > |w1.grid| then Err(MissingStep)
      else if w1.grid[k - 1].note != p then
        var g := if w1.notesOn == 1 && t != 0 then w1.grid[k - 1 := w1.grid[k - 1].(note := p)]
                 else w1.grid;
        match RunMarked(g, k, p)
        case Err(e) => Err(e)
        case Ok(h) => Ok(w1.(notesOn := w1.notesOn - 1, grid := h))
      else
        var g := if w1.ended then w1.grid else w1.grid[k - 1 := w1.grid[k - 1].(slide := 0)];
        Ok(w1.(notesOn := w1.notesOn - 1, grid := g))
  }

  /** One message: meta messages are skipped before the position moves;
      every other message first advances the position by its delta time. */
  function Advance(w: Walker, m: Message): (r: Result<Walker>)
    ensures r.Ok? ==> |r.value.grid| == |w.grid|
  {
    match m
    case Meta(_) => Ok(w)
    case Channel(t) => Ok(w.(ticks := w.ticks + t))
    case NoteOn(p, v, t) => StartNote(w.(ticks := w.ticks + t), p, v, t)
    case NoteOff(p, t) => EndNote(w.(ticks := w.ticks + t), p, t)
  }

  /** The message loop from state w over the messages ms. */
  function Run(w: Walker, ms: seq<Message>): (r: Result<Walker>)
    ensures r.Ok? ==> |r.value.grid| == |w.grid|
    decreases |ms|
  {
    if ms == [] then Ok(w)
    else match Advance(w, ms[0])
      case Err(e) => Err(e)
      case Ok(w') => Run(w', ms[1..])
  }

  /** The loop takes one message at a time. */
  lemma RunUnfold(w: Walker, ms: seq<Message>)
    requires ms != []
    ensures Run(w, ms) == match Advance(w, ms[0])
      case Err(e) => Err(e)
      case Ok(w') => Run(w', ms[1..])
  {
  }

  /** midi_to_pattern: walk the track over a blank n-step grid, insist that
      every note was released, then forward fill the unset pitches. */
  function Walk(track: seq<Message>, n: nat): (r: Result<seq<Cell>>)
    ensures r.Ok? ==> |r.value| == n
  {
    match Run(Start(n), track)
    case Err(e) => Err(e)
    case Ok(w) => if w.notesOn != 0 then Err(UnbalancedNotes) else Filled(w.grid)
  }
}
