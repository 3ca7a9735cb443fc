/** The step grid of midi_to_pattern.py and the three grid rewrites the
    event walker applies to it: the rest backfill, the backward note-run
    scan and the final forward fill.  Step k (1 <= k <= n) of the grid is
    element k - 1 of the sequence. */
module MidiGrid {
  import opened Common
  import opened Pattern

  /** One step: absolute pitch (or the unset sentinel), gate, accent, slide. */
  datatype Cell = Cell(note: int, gate: int, accent: int, slide: int)

  const Blank: Cell := Cell(NoteDefault, GateDefault, AccentDefault, SlideDefault)

  /** A blank pattern of n steps. */
  function EmptyGrid(n: nat): (g: seq<Cell>)
    ensures |g| == n
    ensures forall i :: 0 <= i < n ==>
      g[i].note == -1 && g[i].gate == 0 && g[i].accent == 0 && g[i].slide == 0
  {
    seq(n, _ => Blank)
  }

  /** Every flag of every step is 0 or 1. */
  ghost predicate FlagsBinary(g: seq<Cell>)
  {
    forall i :: 0 <= i < |g| ==>
      g[i].gate in {0, 1} && g[i].accent in {0, 1} && g[i].slide in {0, 1}
  }

  /** Every pitch in the grid is either unset or one of the pitches in ps. */
  ghost predicate PitchesFrom(g: seq<Cell>, ps: set<int>)
  {
    forall i :: 0 <= i < |g| ==> g[i].note == NoteDefault || g[i].note in ps
  }

  // ---------------------------------------------------------------------
  // Rest backfill

  /** The rested steps before a note-on at step k that a rest of len steps
      backfills: k-len+1 .. k-1. */
  predicate InRest(s: int, k: int, len: int)
  {
    k - len < s < k
  }

  /** Backfill after a note-on at step k that followed a rest, the rest
      spanning len - 1 whole steps (k-len+1 .. k-1).  Each rested step takes
      the pitch of the step just before the rest, or the new pitch p when
      the rest reaches back to the start of the pattern.  Only pitches
      change, and a rested step whose gate is open is an error. */
  function RestFilled(g: seq<Cell>, k: int, len: int, p: int): (r: Result<seq<Cell>>)
    requires 1 <= k <= |g|
    ensures r.Err? <==> (len > 1 && (k - len < 0 ||
      exists i :: 0 <= i < |g| && InRest(i + 1, k, len) && g[i].gate != 0))
    ensures r.Ok? ==> |r.value| == |g|
    ensures r.Ok? ==> forall i :: 0 <= i < |g| && len > 1 && InRest(i + 1, k, len) ==>
      && r.value[i].gate == 0
      && r.value[i].accent == g[i].accent && r.value[i].slide == g[i].slide
      && r.value[i].note == (if k == len then p else g[k - len - 1].note)
    ensures r.Ok? ==> forall i :: 0 <= i < |g| && (len <= 1 || !InRest(i + 1, k, len)) ==>
      r.value[i] == g[i]
  {
    if len <= 1 then Ok(g)
    else if k - len < 0 then Err(MissingStep)
    else
      var v := if k - len == 0 then p else g[k - len - 1].note;
      if exists i :: 0 <= i < |g| && k - len < i + 1 < k && g[i].gate != 0 then Err(RestGateOpen)
      else Ok(seq(|g|, i requires 0 <= i < |g| =>
                if InRest(i + 1, k, len) then g[i].(note := v) else g[i]))
  }

  // ---------------------------------------------------------------------
  // Backward note-run scan

  /** The nearest step strictly before step k whose pitch is p: where the
      note that ends at step k began. */
  function RunStart(g: seq<Cell>, k: int, p: int): (r: Option<int>)
    requires k <= |g|
    ensures r.Some? ==> 1 <= r.value < k && g[r.value - 1].note == p
    ensures r.Some? ==> forall i :: r.value <= i < k - 1 ==> g[i].note != p
    ensures r.None? ==> forall i :: 0 <= i < k - 1 ==> g[i].note != p
    decreases k
  {
    if k <= 1 then None
    else if g[k - 2].note == p then Some(k - 1)
    else RunStart(g, k - 1, p)
  }

  /** The backward scan after a note-off of pitch p at step k: every step
      from the run's start up to k - 1 gets pitch p and slide 1, the start
      included.  Running past step 1 is an error. */
  function RunMarked(g: seq<Cell>, k: int, p: int): (r: Result<seq<Cell>>)
    requires 1 <= k <= |g|
    ensures r.Ok? ==> |r.value| == |g|
    ensures r.Err? <==> forall i :: 0 <= i < k - 1 ==> g[i].note != p
  {
    match RunStart(g, k, p)
    case None => Err(MissingStep)
    case Some(j) =>
      Ok(seq(|g|, i requires 0 <= i < |g| =>
           if j <= i + 1 < k then g[i].(note := p, slide := 1) else g[i]))
  }

  /** What a successful scan promises: it rewrote exactly the steps from the
      nearest earlier step holding p up to k - 1, none of which except that
      start held p, and left every other step (step k included) alone. */
  lemma RunMarkedMeaning(g: seq<Cell>, k: int, p: int)
    requires 1 <= k <= |g|
    requires RunMarked(g, k, p).Ok?
    ensures exists j :: (0 <= j < k - 1 && g[j].note == p
      && (forall i :: j < i < k - 1 ==> g[i].note != p)
      && (forall i :: j <= i < k - 1 ==>
            RunMarked(g, k, p).value[i] == g[i].(note := p, slide := 1))
      && (forall i :: 0 <= i < |g| && !(j <= i < k - 1) ==>
            RunMarked(g, k, p).value[i] == g[i]))
  {
    var j := RunStart(g, k, p).value - 1;
    assert 0 <= j < k - 1 && g[j].note == p;
  }

  /** Step by step, the scan either leaves a step alone or gives it pitch p
      and slide 1, keeping its gate and accent. */
  lemma RunMarkedCells(g: seq<Cell>, k: int, p: int)
    requires 1 <= k <= |g|
    requires RunMarked(g, k, p).Ok?
    ensures forall i :: 0 <= i < |g| ==>
      RunMarked(g, k, p).value[i] in {g[i], g[i].(note := p, slide := 1)}
  {
  }

  // ---------------------------------------------------------------------
  // Forward fill

  /** The nearest pitch at or before index i that is set, or the sentinel
      when there is none. */
  function LastSet(g: seq<Cell>, i: int): int
    requires 0 <= i < |g|
    decreases i
  {
    if g[i].note != NoteDefault then g[i].note
    else if i == 0 then NoteDefault
    else LastSet(g, i - 1)
  }

  /** LastSet is the sentinel only when every step up to i is unset, and
      otherwise the pitch of the nearest set step at or before i. */
  lemma {:induction false} LastSetNearest(g: seq<Cell>, i: int)
    requires 0 <= i < |g|
    ensures LastSet(g, i) == NoteDefault <==> forall j :: 0 <= j <= i ==> g[j].note == NoteDefault
    ensures LastSet(g, i) != NoteDefault ==> exists j :: (0 <= j <= i && g[j].note == LastSet(g, i)
      && forall t :: j < t <= i ==> g[t].note == NoteDefault)
    decreases i
  {
    if g[i].note == NoteDefault && i > 0 {
      LastSetNearest(g, i - 1);
    }
  }

  /** Forward fill of unset pitches, then the conversion of every column to
      integers, which fails when step 1 is still unset. */
  function Filled(g: seq<Cell>): (r: Result<seq<Cell>>)
    ensures r.Err? <==> |g| > 0 && g[0].note == NoteDefault
    ensures r.Ok? ==> |r.value| == |g|
  {
    if |g| > 0 && g[0].note == NoteDefault then Err(UnsetFirstStep)
    else Ok(seq(|g|, i requires 0 <= i < |g| => g[i].(note := LastSet(g, i))))
  }

  /** What a successful forward fill promises: no step is left unset, set
      pitches and all flags stay, and each unset step takes the pitch of the
      nearest earlier set step. */
  lemma FilledMeaning(g: seq<Cell>)
    requires Filled(g).Ok?
    ensures var h := Filled(g).value;
      forall i :: 0 <= i < |g| ==>
        && h[i].note != NoteDefault
        && h[i].gate == g[i].gate && h[i].accent == g[i].accent && h[i].slide == g[i].slide
        && (g[i].note != NoteDefault ==> h[i].note == g[i].note)
        && (g[i].note == NoteDefault ==> exists j :: (0 <= j < i && g[j].note != NoteDefault
              && h[i].note == g[j].note
              && forall t :: j < t <= i ==> g[t].note == NoteDefault))
  {
    var h := Filled(g).value;
    forall i | 0 <= i < |g|
      ensures h[i].note != NoteDefault
      ensures g[i].note == NoteDefault ==> exists j :: (0 <= j < i && g[j].note != NoteDefault
              && h[i].note == g[j].note
              && forall t :: j < t <= i ==> g[t].note == NoteDefault)
    {
      LastSetNearest(g, i);
      assert g[0].note != NoteDefault;
    }
  }
}
