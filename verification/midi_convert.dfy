/** midi_to_pattern as the source runs it: one pass over the messages with
    the position, the count of sounding notes and the tie flag in local
    variables, and the grid a fixed array rewritten in place by index.
    Each method is proved to compute the value the specification in
    MidiWalk and MidiGrid gives. */
module MidiConvert {
  import opened Common
  import opened Pattern
  import opened MidiGrid
  import opened MidiWalk

  /** The rest backfill loop: i = 1 .. len-1 writes step k - i. */
  method FillRest(grid: array<Cell>, k: int, len: int, p: int) returns (st: Status)
    requires 1 <= k <= grid.Length
    modifies grid
    ensures RestFilled(old(grid[..]), k, len, p) == if st.Done? then Ok(grid[..]) else Err(st.reason)
  {
    ghost var g := grid[..];
    if len <= 1 {
      return Done;
    }
    if k - len < 0 {
      // the first iteration reads the step before the rest, which does not exist
      return Failed(MissingStep);
    }
    ghost var v := if k - len == 0 then p else g[k - len - 1].note;
    var i := 1;
    while i < len
      invariant 1 <= i <= len
      invariant forall j :: 0 <= j < grid.Length ==>
        grid[j] == if k - i < j + 1 < k then g[j].(note := v) else g[j]
      invariant forall j :: 0 <= j < grid.Length && k - i < j + 1 < k ==> g[j].gate == 0
    {
      var fill := if k - len == 0 then p else grid[k - len - 1].note;
      grid[k - i - 1] := grid[k - i - 1].(note := fill);
      if grid[k - i - 1].gate != 0 {
        assert InRest(k - i, k, len) && g[k - i - 1].gate != 0;
        return Failed(RestGateOpen);
      }
      i := i + 1;
    }
    assert grid[..] == seq(|g|, j requires 0 <= j < |g| =>
                             if InRest(j + 1, k, len) then g[j].(note := v) else g[j]);
    st := Done;
  }

  /** The backward scan: from step k - 1 down, each step gets pitch p and
      slide 1; the scan stops after the first step that already held p. */
  method ScanBack(grid: array<Cell>, k: int, p: int) returns (st: Status)
    requires 1 <= k <= grid.Length
    modifies grid
    ensures RunMarked(old(grid[..]), k, p) == if st.Done? then Ok(grid[..]) else Err(st.reason)
  {
    ghost var g := grid[..];
    var i := 1;
    while true
      invariant 1 <= i <= k
      invariant forall j :: k - i <= j < k - 1 ==> g[j].note != p
      invariant forall j :: 0 <= j < grid.Length ==>
        grid[j] == if k - i <= j < k - 1 then g[j].(note := p, slide := 1) else g[j]
      decreases k - i
    {
      if k - i < 1 {
        return Failed(MissingStep);
      }
      var scan := grid[k - i - 1].note;
      grid[k - i - 1] := grid[k - i - 1].(note := p, slide := 1);
      if scan == p {
        assert RunStart(g, k, p) == Some(k - i);
        assert grid[..] == seq(|g|, j requires 0 <= j < |g| =>
                                 if k - i <= j + 1 < k then g[j].(note := p, slide := 1) else g[j]);
        return Done;
      }
      i := i + 1;
    }
  }

  /** The forward fill of unset pitches and the final integer conversion,
      which fails when step 1 is still unset. */
  method FillForward(grid: array<Cell>) returns (st: Status)
    modifies grid
    ensures Filled(old(grid[..])) == if st.Done? then Ok(grid[..]) else Err(st.reason)
  {
    ghost var g := grid[..];
    if grid.Length > 0 && grid[0].note == NoteDefault {
      return Failed(UnsetFirstStep);
    }
    var last := NoteDefault;
    var i := 0;
    while i < grid.Length
      invariant 0 <= i <= grid.Length
      invariant i > 0 ==> last == LastSet(g, i - 1)
      invariant forall j :: 0 <= j < i ==> grid[j] == g[j].(note := LastSet(g, j))
      invariant forall j :: i <= j < grid.Length ==> grid[j] == g[j]
    {
      if grid[i].note == NoteDefault {
        assert i > 0 && LastSet(g, i) == LastSet(g, i - 1);
        grid[i] := grid[i].(note := last);
      } else {
        last := grid[i].note;
      }
      i := i + 1;
    }
    assert grid[..] == seq(|g|, j requires 0 <= j < |g| => g[j].(note := LastSet(g, j)));
    return Done;
  }

  /** A note-on of pitch p, velocity v and delta time t at the already
      advanced position: write the attack and backfill a preceding rest. */
  method StartNoteAt(grid: array<Cell>, ticks: nat, notesOn: int, ended: bool, p: int, v: int, t: nat)
    returns (notesOn': int, st: Status)
    modifies grid
    ensures StartNote(Walker(ticks, notesOn, ended, old(grid[..])), p, v, t)
      == if st.Done? then Ok(Walker(ticks, notesOn', ended, grid[..])) else Err(st.reason)
  {
    notesOn' := notesOn + 1;
    var k := StepAt(ticks);
    if k > grid.Length {
      return notesOn', Failed(MissingStep);
    }
    grid[k - 1] := grid[k - 1].(note := p, gate := 1,
                                accent := if v > AccentVelocity then 1 else 0);
    st := Done;
    if t > TimePerBeat / 2 && notesOn' == 1 {
      st := FillRest(grid, k, t / TimePerBeat + 1, p);
    }
  }

  /** A note-off of pitch p and delta time t at the already advanced
      position: the tie over the end, then the backward scan or the
      clearing of the attack's slide. */
  method EndNoteAt(grid: array<Cell>, ticks: nat, notesOn: int, ended: bool, p: int, t: nat)
    returns (ticks': nat, notesOn': int, ended': bool, st: Status)
    modifies grid
    ensures EndNote(Walker(ticks, notesOn, ended, old(grid[..])), p, t)
      == if st.Done? then Ok(Walker(ticks', notesOn', ended', grid[..])) else Err(st.reason)
  {
    ticks', notesOn', ended' := ticks, notesOn, ended;
    ghost var w := Walker(ticks, notesOn, ended, grid[..]);
    var n := grid.Length;
    if ticks == TimePerBeat * n {
      if n == 0 {
        return ticks', notesOn', ended', Failed(MissingStep);
      }
      grid[n - 1] := grid[n - 1].(slide := 1);
      ticks' := TimePerBeat * n - TimePerBeat / 2;
      ended' := true;
    }
    assert TieChecked(w) == Walker(ticks', notesOn, ended', grid[..]);
    var k := StepAt(ticks');
    if k > n {
      return ticks', notesOn', ended', Failed(MissingStep);
    }
    st := Done;
    if grid[k - 1].note != p {
      if notesOn == 1 && t != 0 {
        grid[k - 1] := grid[k - 1].(note := p);
      }
      st := ScanBack(grid, k, p);
    } else if !ended' {
      grid[k - 1] := grid[k - 1].(slide := 0);
    }
    notesOn' := notesOn - 1;
  }

  /** One message of the loop: meta messages are skipped, every other
      message first moves the position by its delta time. */
  method AdvanceAt(grid: array<Cell>, ticks: nat, notesOn: int, ended: bool, m: Message)
    returns (ticks': nat, notesOn': int, ended': bool, st: Status)
    modifies grid
    ensures Advance(Walker(ticks, notesOn, ended, old(grid[..])), m)
      == if st.Done? then Ok(Walker(ticks', notesOn', ended', grid[..])) else Err(st.reason)
  {
    ticks', notesOn', ended', st := ticks, notesOn, ended, Done;
    ghost var w := Walker(ticks, notesOn, ended, grid[..]);
    match m {
      case Meta(_) =>
        assert Advance(w, m) == Ok(w);
      case Channel(t) =>
        ticks' := ticks + t;
        assert Advance(w, m) == Ok(w.(ticks := ticks'));
      case NoteOn(p, v, t) =>
        ticks', notesOn', st := AdvanceNoteOn(grid, ticks, notesOn, ended, p, v, t);
      case NoteOff(p, t) =>
        ticks', notesOn', ended', st := AdvanceNoteOff(grid, ticks, notesOn, ended, p, t);
    }
  }

  /** The loop body on a note-on: move the position by its delta time,
      then handle the note. */
  method AdvanceNoteOn(grid: array<Cell>, ticks: nat, notesOn: int, ended: bool, p: int, v: int, t: nat)
    returns (ticks': nat, notesOn': int, st: Status)
    modifies grid
    ensures Advance(Walker(ticks, notesOn, ended, old(grid[..])), NoteOn(p, v, t))
      == if st.Done? then Ok(Walker(ticks', notesOn', ended, grid[..])) else Err(st.reason)
  {
    ticks' := ticks + t;
    notesOn', st := StartNoteAt(grid, ticks', notesOn, ended, p, v, t);
  }

  /** The loop body on a note-off: move the position by its delta time,
      then handle the note. */
  method AdvanceNoteOff(grid: array<Cell>, ticks: nat, notesOn: int, ended: bool, p: int, t: nat)
    returns (ticks': nat, notesOn': int, ended': bool, st: Status)
    modifies grid
    ensures Advance(Walker(ticks, notesOn, ended, old(grid[..])), NoteOff(p, t))
      == if st.Done? then Ok(Walker(ticks', notesOn', ended', grid[..])) else Err(st.reason)
  {
    ticks', notesOn', ended', st := EndNoteAt(grid, ticks + t, notesOn, ended, p, t);
  }

  /** midi_to_pattern on an already decoded single-track message list. */
  method MidiToPattern(track: seq<Message>, nBeats: nat) returns (r: Result<seq<Cell>>)
    ensures r == Walk(track, nBeats)
  {
    var grid := new Cell[nBeats](_ => Blank);
    var ticks: nat, notesOn: int, ended := 0, 0, false;
    assert grid[..] == EmptyGrid(nBeats);
    var i := 0;
    while i < |track|
      invariant 0 <= i <= |track|
      invariant grid.Length == nBeats
      invariant Run(Start(nBeats), track) == Run(Walker(ticks, notesOn, ended, grid[..]), track[i..])
      decreases |track| - i
    {
      RunUnfold(Walker(ticks, notesOn, ended, grid[..]), track[i..]);
      assert track[i..][0] == track[i] && track[i..][1..] == track[i + 1..];
      var st;
      ticks, notesOn, ended, st := AdvanceAt(grid, ticks, notesOn, ended, track[i]);
      if st.Failed? {
        return Err(st.reason);
      }
      i := i + 1;
    }
    if notesOn != 0 {
      return Err(UnbalancedNotes);
    }
    var st := FillForward(grid);
    if st.Failed? {
      return Err(st.reason);
    }
    r := Ok(grid[..]);
  }
}
