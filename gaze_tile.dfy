/** GazeTile: the per-tile dwell state. A tile remembers when it was first
    looked at (once per session), lights up while gazed at, and completes
    exactly once; a completed tile ignores every further gaze event until
    it is reset for a new session. */
module GazeTiles {
  import opened GazeCommon

  /** The idle or active material and scale; colours, audio and effects are not modelled. */
  datatype Visual = Idle | Active

  /** The value of a tile's dwell fields. */
  datatype TileState = TileState(completed: bool, lookedAt: bool, firstLook: real, visual: Visual)

  /** A tile at the start of a session: not completed, never looked at,
      first-look time -1, idle. */
  const Fresh := TileState(false, false, -1.0, Idle)

  /** The arguments the completion callback receives: the tile's index, its
      reported first-look time and the dwell duration. */
  datatype Completion = Completion(tileIndex: int, firstLook: real, dwell: real)

  /** The calls a tile receives. */
  datatype TileEvent = Enter(now: real) | Exit | DwellComplete(dwell: real, now: real) | Reset

  /** The first-look time a completion reports: the stored one when it is
      positive, otherwise the current time. A stored 0 is thus replaced too. */
  function ReportedFirstLook(s: TileState, now: real): real
  {
    if s.firstLook > 0.0 then s.firstLook else now
  }

  /** The tile's state after one call. */
  function Next(s: TileState, e: TileEvent): TileState
  {
    match e
    case Reset => Fresh
    case _ =>
      if s.completed then s
      else match e
        case Enter(now) =>
          if s.lookedAt then s.(visual := Active)
          else s.(lookedAt := true, firstLook := now, visual := Active)
        case Exit => s.(visual := Idle)
        case DwellComplete(_, _) => s.(completed := true, visual := Active)
  }

  /** The callback invocation one call makes, if any. */
  function Emits(s: TileState, e: TileEvent, index: int): Option<Completion>
  {
    match e
    case DwellComplete(dwell, now) =>
      if s.completed then None else Some(Completion(index, ReportedFirstLook(s, now), dwell))
    case _ => None
  }

  /** The state after a sequence of calls. */
  function Run(s: TileState, es: seq<TileEvent>): TileState
    decreases |es|
  {
    if es == [] then s else Run(Next(s, es[0]), es[1..])
  }

  /** The callback invocations made over a sequence of calls, in order. */
  function Emitted(s: TileState, es: seq<TileEvent>, index: int): seq<Completion>
    decreases |es|
  {
    if es == [] then []
    else
      (match Emits(s, es[0], index) case Some(c) => [c] case None => [])
      + Emitted(Next(s, es[0]), es[1..], index)
  }

  predicate NoReset(es: seq<TileEvent>)
  {
    forall i :: 0 <= i < |es| ==> !es[i].Reset?
  }

  function ResetCount(es: seq<TileEvent>): nat
  {
    if es == [] then 0 else (if es[0].Reset? then 1 else 0) + ResetCount(es[1..])
  }

  /** A completed tile is frozen: without a reset, no call changes it and no
      call reaches the callback. */
  lemma {:induction false} CompletedIsFrozen(s: TileState, es: seq<TileEvent>, index: int)
    requires s.completed && NoReset(es)
    ensures Run(s, es) == s && Emitted(s, es, index) == []
    decreases |es|
  {
    if es != [] {
      CompletedIsFrozen(s, es[1..], index);
    }
  }

  /** Once set, the first-look time survives every enter, exit and completion
      until the next reset. */
  lemma {:induction false} FirstLookKept(s: TileState, es: seq<TileEvent>)
    requires s.lookedAt && NoReset(es)
    ensures Run(s, es).lookedAt && Run(s, es).firstLook == s.firstLook
    decreases |es|
  {
    if es != [] {
      FirstLookKept(Next(s, es[0]), es[1..]);
    }
  }

  /** The first enter of a session records its time; an enter on a tile
      already looked at, or a completed one, records nothing. */
  lemma FirstEnterRecords(s: TileState, now: real)
    ensures !s.completed && !s.lookedAt ==> Next(s, Enter(now)).firstLook == now
    ensures s.completed || s.lookedAt ==> Next(s, Enter(now)).firstLook == s.firstLook
  {
  }

  /** Completion is one-shot: between two resets the callback runs at most
      once, and never for a tile that starts completed. */
  lemma {:induction false} AtMostOneCompletion(s: TileState, es: seq<TileEvent>, index: int)
    requires NoReset(es)
    ensures |Emitted(s, es, index)| <= 1
    ensures s.completed ==> Emitted(s, es, index) == []
    ensures |Emitted(s, es, index)| == 1 ==> Run(s, es).completed
    decreases |es|
  {
    if es != [] {
      var t := Next(s, es[0]);
      AtMostOneCompletion(t, es[1..], index);
      if Emits(s, es[0], index).Some? {
        CompletedIsFrozen(t, es[1..], index);
      }
    }
  }

  /** Over any history, the callback runs at most once per session: once at
      first and once more after each reset. */
  lemma {:induction false} CompletionsPerSession(s: TileState, es: seq<TileEvent>, index: int)
    ensures |Emitted(s, es, index)| <= 1 + ResetCount(es)
    ensures s.completed ==> |Emitted(s, es, index)| <= ResetCount(es)
    decreases |es|
  {
    if es != [] {
      var t := Next(s, es[0]);
      CompletionsPerSession(t, es[1..], index);
    }
  }

  /** Every completion reported after the first enter of a session at a
      positive time carries that enter's time as first-look time. */
  lemma {:induction false} CompletionReportsFirstEnter(s: TileState, es: seq<TileEvent>, index: int)
    requires s.lookedAt && s.firstLook > 0.0 && NoReset(es)
    ensures forall c :: c in Emitted(s, es, index) ==> c.firstLook == s.firstLook && c.tileIndex == index
    decreases |es|
  {
    if es != [] {
      FirstLookKept(s, es[..1]);
      assert Run(s, es[..1]) == Next(s, es[0]);
      CompletionReportsFirstEnter(Next(s, es[0]), es[1..], index);
    }
  }

  /** The `GazeTile` component. */
  class Tile {
    const tileIndex: int
    var isCompleted: bool
    var hasBeenLookedAt: bool
    var firstLookTime: real
    var visual: Visual

    /** The tile's dwell fields as a value. */
    function State(): TileState
      reads this
    {
      TileState(isCompleted, hasBeenLookedAt, firstLookTime, visual)
    }

    /** Field initialisers and `Start`: not completed, never looked at,
        first-look time -1, idle. */
    constructor (tileIndex: int)
      ensures this.tileIndex == tileIndex && State() == Fresh
    {
      this.tileIndex := tileIndex;
      isCompleted, hasBeenLookedAt, firstLookTime, visual := false, false, -1.0, Idle;
    }

    /** A completed tile ignores the enter; otherwise the first enter of the
        session records its time and the tile turns active. */
    method OnGazeEnter(now: real)
      modifies this
      ensures State() == Next(old(State()), Enter(now))
      ensures old(isCompleted) ==> unchanged(this)
      ensures !old(isCompleted) ==> visual == Active && hasBeenLookedAt && !isCompleted
      ensures !old(isCompleted) ==>
        firstLookTime == if old(hasBeenLookedAt) then old(firstLookTime) else now
    {
      if isCompleted {
        return;
      }
      if !hasBeenLookedAt {
        hasBeenLookedAt := true;
        firstLookTime := now;
      }
      visual := Active;
    }

    /** A completed tile ignores the exit; otherwise the tile returns to idle. */
    method OnGazeExit()
      modifies this
      ensures State() == Next(old(State()), Exit)
      ensures old(isCompleted) ==> unchanged(this)
      ensures !old(isCompleted) ==> State() == old(State()).(visual := Idle)
    {
      if isCompleted {
        return;
      }
      visual := Idle;
    }

    /** One-shot completion. On a completed tile nothing happens and the
        callback is not invoked. Otherwise the tile completes, stays active,
        and the callback (when one is given) is invoked exactly once, with
        the reported first-look time and the given dwell duration. */
    method OnGazeDwellComplete(dwell: real, now: real, hasCallback: bool) returns (notified: Option<Completion>)
      modifies this
      ensures State() == Next(old(State()), DwellComplete(dwell, now))
      ensures old(isCompleted) ==> unchanged(this) && notified == None
      ensures !old(isCompleted) ==> isCompleted && visual == Active
      ensures !old(isCompleted) && hasCallback ==>
        notified == Some(Completion(tileIndex, ReportedFirstLook(old(State()), now), dwell))
      ensures !hasCallback ==> notified == None
    {
      if isCompleted {
        return None;
      }
      isCompleted := true;
      visual := Active;
      var firstLook := if firstLookTime > 0.0 then firstLookTime else now;
      notified := if hasCallback then Some(Completion(tileIndex, firstLook, dwell)) else None;
    }

    /** Back to the state of a new session. */
    method ResetTile()
      modifies this
      ensures State() == Fresh
      ensures !isCompleted && !hasBeenLookedAt && firstLookTime == -1.0 && visual == Idle
    {
      isCompleted := false;
      hasBeenLookedAt := false;
      firstLookTime := -1.0;
      visual := Idle;
    }
  }
}
