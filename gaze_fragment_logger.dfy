/** GazeFragmentLogger: a two-state fixation logger. Each frame classifies
    the head's forward direction as looking at the target or not; a change
    from not looking to looking logs a Start row, the opposite change logs a
    Stop row carrying the fixation time accumulated in between. */
module FragmentLogger {
  import opened GazeCommon

  /** A row of the log (`timestamp,event,fixationTime`). */
  datatype LogRow = Header | Start(time: real) | Stop(time: real, fixation: real)

  /** Looking means the cosine between the forward direction and the
      direction to the target exceeds 1 - `hitRadius`, strictly. */
  predicate LookingAt(dot: real, hitRadius: real)
  {
    dot > 1.0 - hitRadius
  }

  /** Rows after the header alternate Start, Stop, Start, ..., beginning with
      a Start, and every Stop carries a non-negative fixation time. */
  ghost predicate Alternating(events: seq<LogRow>)
  {
    forall i :: 0 <= i < |events| ==>
      if i % 2 == 0 then events[i].Start? else events[i].Stop? && events[i].fixation >= 0.0
  }

  function CountStarts(events: seq<LogRow>): nat
  {
    if events == [] then 0 else CountStarts(events[..|events| - 1]) + (if events[|events| - 1].Start? then 1 else 0)
  }

  function CountStops(events: seq<LogRow>): nat
  {
    if events == [] then 0 else CountStops(events[..|events| - 1]) + (if events[|events| - 1].Stop? then 1 else 0)
  }

  /** In an alternating log the Stop rows number as many as the Start rows,
      or one fewer while a fixation is still open; which of the two holds is
      given by the parity of the log's length. */
  lemma {:induction false} StopsMatchStarts(events: seq<LogRow>)
    requires Alternating(events)
    ensures |events| % 2 == 0 ==> CountStops(events) == CountStarts(events)
    ensures |events| % 2 == 1 ==> CountStops(events) + 1 == CountStarts(events)
  {
    if events != [] {
      var init := events[..|events| - 1];
      assert Alternating(init) by {
        forall i | 0 <= i < |init|
          ensures if i % 2 == 0 then init[i].Start? else init[i].Stop? && init[i].fixation >= 0.0
        {
          assert init[i] == events[i];
        }
      }
      StopsMatchStarts(init);
    }
  }

  /** Appending a row of the expected kind keeps the log alternating. */
  lemma AlternatingAppend(events: seq<LogRow>, r: LogRow)
    requires Alternating(events)
    requires if |events| % 2 == 0 then r.Start? else r.Stop? && r.fixation >= 0.0
    ensures Alternating(events + [r])
  {
  }

  /** The `GazeFragmentLogger` component. */
  class FixationLogger {
    const hitRadius: real

    var fixationTime: real
    var isLooking: bool
    /** The in-memory log. */
    var rows: seq<LogRow>
    /** The log file as last written, if it was written. */
    var savedLog: Option<seq<LogRow>>

    /** The header comes first, the rest alternates, and `isLooking` holds
        exactly when the last row is an open Start. */
    ghost predicate Valid()
      reads this
    {
      && |rows| >= 1 && rows[0] == Header
      && Alternating(rows[1..])
      && (isLooking <==> |rows[1..]| % 2 == 1)
      && fixationTime >= 0.0
    }

    /** Field initialisers and `Start`: the header row, not looking. */
    constructor (hitRadius: real)
      ensures Valid() && this.hitRadius == hitRadius
      ensures rows == [Header] && !isLooking && fixationTime == 0.0 && savedLog == None
    {
      this.hitRadius := hitRadius;
      fixationTime := 0.0;
      isLooking := false;
      rows := [Header];
      savedLog := None;
      new;
      assert rows[1..] == [];
    }

    /** One frame at time `now`, lasting `deltaTime`, with `dot` the cosine
        between the forward direction and the direction to the target. With
        the camera rig or the target missing nothing happens. Starting to
        look logs a Start row and zeroes the fixation time; looking adds the
        frame's duration; stopping logs a Stop row with the accumulated time
        and zeroes it. A frame that does not change the looking state logs
        nothing. */
    method Update(now: real, deltaTime: real, refsPresent: bool, dot: real)
      requires Valid() && deltaTime >= 0.0
      modifies this
      ensures Valid()
      ensures savedLog == old(savedLog)
      ensures !refsPresent ==> unchanged(this)
      ensures refsPresent ==> isLooking == LookingAt(dot, hitRadius)
      ensures refsPresent && LookingAt(dot, hitRadius) ==>
        && rows == old(rows) + (if old(isLooking) then [] else [Start(now)])
        && fixationTime == (if old(isLooking) then old(fixationTime) else 0.0) + deltaTime
      ensures refsPresent && !LookingAt(dot, hitRadius) ==>
        && rows == old(rows) + (if old(isLooking) then [Stop(now, old(fixationTime))] else [])
        && fixationTime == (if old(isLooking) then 0.0 else old(fixationTime))
    {
      if !refsPresent {
        return;
      }
      var lookingNow := LookingAt(dot, hitRadius);
      if lookingNow {
        if !isLooking {
          isLooking := true;
          fixationTime := 0.0;
          AppendRow(Start(now));
        }
        fixationTime := fixationTime + deltaTime;
      } else {
        if isLooking {
          isLooking := false;
          AppendRow(Stop(now, fixationTime));
          fixationTime := 0.0;
        }
      }
    }

    /** `rows.Add`, for a row of the kind the alternation expects next. */
    method AppendRow(r: LogRow)
      requires |rows| >= 1 && rows[0] == Header && Alternating(rows[1..])
      requires if |rows[1..]| % 2 == 0 then r.Start? else r.Stop? && r.fixation >= 0.0
      modifies this`rows
      ensures rows == old(rows) + [r]
      ensures Alternating(rows[1..])
    {
      AlternatingAppend(rows[1..], r);
      rows := rows + [r];
      assert rows[1..] == old(rows)[1..] + [r];
    }

    /** Leaving the application saves the log as it stands. */
    method OnApplicationQuit()
      modifies this`savedLog
      ensures savedLog == Some(rows)
    {
      SaveCsv();
    }

    /** Writes every row, header first, replacing any earlier file. */
    method SaveCsv()
      modifies this`savedLog
      ensures savedLog == Some(rows)
    {
      savedLog := Some(rows);
    }
  }

  /** In any log the logger keeps, the Stop rows equal the Start rows in
      number, or are one fewer exactly while the user is still looking. */
  lemma StopCountOfLogger(l: FixationLogger)
    requires l.Valid()
    ensures !l.isLooking ==> CountStops(l.rows[1..]) == CountStarts(l.rows[1..])
    ensures l.isLooking ==> CountStops(l.rows[1..]) + 1 == CountStarts(l.rows[1..])
  {
    StopsMatchStarts(l.rows[1..]);
  }
}
