/** StarGazeTest: a sequential reaction-time trial. The stars are armed one
    at a time, in list order. An armed star's trial ends when the gaze ray
    hits that star (the reaction time is the time since it was armed) or
    when strictly more than `maxWaitPerStar` seconds have passed; either way
    exactly one row is logged and the next star is armed. After the last
    star the log is saved. An unassigned entry in the star list cannot be
    armed, and the run stalls there. */
module StarGaze {
  import opened GazeCommon

  /** A row of the trial log (`starIndex,startTime,firstLookTime,reactionTime,hit`);
      the two middle fields are empty on a miss. */
  datatype TrialRow =
    | Header
    | Trial(starIndex: int, startTime: real, firstLook: Option<real>, reaction: Option<real>, hit: bool)

  /** What the gaze ray cast returned: nothing, or an object identified by
      its transform. */
  datatype RayHit = Nothing | Hit(transform: int)

  /** The row of a trial ended by a look at time `now`. */
  function HitRow(index: int, start: real, now: real): TrialRow
  {
    Trial(index, start, Some(now), Some(now - start), true)
  }

  /** The row of a trial that timed out. */
  function MissRow(index: int, start: real): TrialRow
  {
    Trial(index, start, None, None, false)
  }

  /** A trial row is either a hit whose reaction time is the first-look time
      minus the start time and is not negative, or a miss with both fields
      empty. */
  predicate WellFormedTrial(r: TrialRow)
  {
    && r.Trial?
    && (if r.hit then
          && r.firstLook.Some? && r.reaction.Some?
          && r.reaction.value == r.firstLook.value - r.startTime && r.reaction.value >= 0.0
        else r.firstLook.None? && r.reaction.None?)
  }

  /** The log after `k` finished trials: the header, then one well-formed row
      for each of the stars 0 .. k-1, in order. */
  ghost predicate TrialLog(rows: seq<TrialRow>, k: int)
  {
    && k >= 0 && |rows| == k + 1 && rows[0] == Header
    && forall i :: 1 <= i < |rows| ==> WellFormedTrial(rows[i]) && rows[i].starIndex == i - 1
  }

  /** A row's trial started no later than `clock`. */
  ghost predicate StartedBy(rows: seq<TrialRow>, clock: real)
  {
    forall i :: 0 <= i < |rows| && rows[i].Trial? ==> rows[i].startTime <= clock
  }

  lemma TrialLogAppend(rows: seq<TrialRow>, k: int, r: TrialRow)
    requires TrialLog(rows, k) && WellFormedTrial(r) && r.starIndex == k
    ensures TrialLog(rows + [r], k + 1)
  {
  }

  /** A hit at a time no earlier than the start yields a well-formed row
      whose reaction time is exactly the elapsed time. */
  lemma HitRowWellFormed(index: int, start: real, now: real)
    requires start <= now
    ensures WellFormedTrial(HitRow(index, start, now))
    ensures HitRow(index, start, now).reaction == Some(now - start)
  {
  }

  /** The star indices of the trial rows, in log order. */
  function StarIndices(rows: seq<TrialRow>): seq<int>
  {
    if rows == [] then []
    else StarIndices(rows[..|rows| - 1]) + (if rows[|rows| - 1].Trial? then [rows[|rows| - 1].starIndex] else [])
  }

  /** The stars 0, 1, ..., k-1 in order. */
  function Upto(k: nat): seq<int>
  {
    seq(k, i => i)
  }

  /** After k trials the log holds exactly one row per star 0 .. k-1, in that
      order: no star is skipped, repeated or logged out of order. */
  lemma {:induction false} RowsInStarOrder(rows: seq<TrialRow>, k: int)
    requires TrialLog(rows, k)
    ensures StarIndices(rows) == Upto(k)
    decreases k
  {
    if k > 0 {
      var init := rows[..k];
      assert TrialLog(init, k - 1) by {
        forall i | 1 <= i < |init|
          ensures WellFormedTrial(init[i]) && init[i].starIndex == i - 1
        {
          assert init[i] == rows[i];
        }
      }
      RowsInStarOrder(init, k - 1);
      assert rows[..|rows| - 1] == init;
      assert Upto(k) == Upto(k - 1) + [k - 1];
    } else {
      assert rows == [Header];
      assert rows[..0] == [];
    }
  }

  /** The `StarGazeTest` component. `stars` holds the transforms of the stars,
      in trial order; `None` is a list entry left unassigned. */
  class StarTrial {
    const stars: seq<Option<int>>
    const maxWaitPerStar: real

    var currentIndex: int
    var starStartTime: real
    var waitingForGaze: bool
    /** The in-memory log. */
    var rows: seq<TrialRow>
    /** The log file as last written, if it was written. */
    var savedLog: Option<seq<TrialRow>>

    /** The latest time at which the trial changed state. */
    ghost var clock: real

    /** The run reached an unassigned entry: arming it failed, so no star is
        armed although the run has not finished. */
    predicate Stalled()
      reads this
    {
      !waitingForGaze && 0 <= currentIndex < |stars|
    }

    /** Between frames: a star is armed exactly while the index is at an
        assigned entry, the run is stalled exactly at an unassigned one, each
        earlier star has its row, and a finished run has saved its log. */
    ghost predicate Valid()
      reads this
    {
      && 0 <= currentIndex <= |stars|
      && (waitingForGaze <==> currentIndex < |stars| && stars[currentIndex].Some?)
      && (Stalled() ==> stars[currentIndex].None?)
      && TrialLog(rows, currentIndex)
      && StartedBy(rows, clock)
      && (waitingForGaze ==> starStartTime <= clock)
      && (currentIndex == |stars| ==> savedLog == Some(rows))
    }

    /** Field initialisers and `Start`: the header row, then the first star
        is armed at `now` (with no stars the run finishes at once; with an
        unassigned first entry it stalls). */
    constructor (stars: seq<Option<int>>, maxWaitPerStar: real, now: real)
      ensures Valid() && this.stars == stars && this.maxWaitPerStar == maxWaitPerStar
      ensures currentIndex == 0 && clock == now && rows == [Header]
      ensures |stars| > 0 && stars[0].Some? ==> waitingForGaze && starStartTime == now && savedLog == None
      ensures |stars| > 0 && stars[0].None? ==> Stalled() && savedLog == None
      ensures |stars| == 0 ==> !waitingForGaze && savedLog == Some([Header])
    {
      this.stars := stars;
      this.maxWaitPerStar := maxWaitPerStar;
      currentIndex := -1;
      starStartTime := 0.0;
      waitingForGaze := false;
      rows := [];
      savedLog := None;
      clock := now;
      new;
      rows := rows + [Header];
      NextStar(now);
    }

    /** One frame. Nothing changes when the eye references are missing, the
        star list is empty, neither eye tracks, no star is armed (the run
        finished or stalled) or the index is out of range. Otherwise a hit on
        the armed star logs a hit row (even if the wait is already over),
        else a wait strictly longer than `maxWaitPerStar` logs a miss row;
        both then arm the next star. */
    method Update(now: real, eyesAssigned: bool, leftEnabled: bool, rightEnabled: bool, hit: RayHit)
      requires Valid() && now >= clock
      modifies this
      ensures Valid()
      ensures !eyesAssigned || |stars| == 0 || (!leftEnabled && !rightEnabled) || !old(waitingForGaze) ==>
        unchanged(this)
      ensures var on := eyesAssigned && |stars| > 0 && (leftEnabled || rightEnabled) && old(waitingForGaze);
        && (on && hit == Hit(stars[old(currentIndex)].value) ==>
              rows == old(rows) + [HitRow(old(currentIndex), old(starStartTime), now)]
              && currentIndex == old(currentIndex) + 1 && clock == now)
        && (on && hit != Hit(stars[old(currentIndex)].value) && now - old(starStartTime) > maxWaitPerStar ==>
              rows == old(rows) + [MissRow(old(currentIndex), old(starStartTime))]
              && currentIndex == old(currentIndex) + 1 && clock == now)
        && (on && hit != Hit(stars[old(currentIndex)].value) && now - old(starStartTime) <= maxWaitPerStar ==>
              unchanged(this))
      ensures currentIndex < |stars| ==> savedLog == old(savedLog)
      ensures old(clock) <= clock <= now
      ensures currentIndex > old(currentIndex) && currentIndex < |stars| ==>
        && (stars[currentIndex].Some? ==> waitingForGaze && starStartTime == now)
        && (stars[currentIndex].None? ==> Stalled())
    {
      if !eyesAssigned || |stars| == 0 {
        return;
      }
      if !leftEnabled && !rightEnabled {
        return;
      }
      if !waitingForGaze || currentIndex < 0 || currentIndex >= |stars| {
        return;
      }
      var targetStar := stars[currentIndex];
      var hitStar := hit.Hit? && Some(hit.transform) == targetStar;
      if hitStar {
        HitRowWellFormed(currentIndex, starStartTime, now);
        TrialLogAppend(rows, currentIndex, HitRow(currentIndex, starStartTime, now));
        rows := rows + [HitRow(currentIndex, starStartTime, now)];
        waitingForGaze := false;
        clock := now;
        NextStar(now);
      } else if now - starStartTime > maxWaitPerStar {
        TrialLogAppend(rows, currentIndex, MissRow(currentIndex, starStartTime));
        rows := rows + [MissRow(currentIndex, starStartTime)];
        waitingForGaze := false;
        clock := now;
        NextStar(now);
      }
    }

    /** Advances to the next star: past the last one the run finishes and
        the log is saved; otherwise that star is armed at `now`. Arming an
        unassigned entry fails after the index has moved, leaving the run
        stalled there with nothing armed. */
    method NextStar(now: real)
      requires -1 <= currentIndex < |stars| && !waitingForGaze && now == clock
      requires TrialLog(rows, currentIndex + 1) && StartedBy(rows, clock)
      modifies this`currentIndex, this`starStartTime, this`waitingForGaze, this`savedLog
      ensures Valid()
      ensures currentIndex == old(currentIndex) + 1
      ensures currentIndex < |stars| && stars[currentIndex].Some? ==>
        waitingForGaze && starStartTime == now && savedLog == old(savedLog)
      ensures currentIndex < |stars| && stars[currentIndex].None? ==>
        Stalled() && starStartTime == old(starStartTime) && savedLog == old(savedLog)
      ensures currentIndex == |stars| ==> !waitingForGaze && savedLog == Some(rows)
    {
      currentIndex := currentIndex + 1;
      if currentIndex >= |stars| {
        SaveCsv();
        return;
      }
      if stars[currentIndex].None? {
        return;
      }
      starStartTime := now;
      waitingForGaze := true;
    }

    /** Leaving the application saves the log as it stands. */
    method OnApplicationQuit()
      modifies this`savedLog
      ensures savedLog == Some(rows)
    {
      SaveCsv();
    }

    /** Writes every row, header first, replacing any earlier file. */
    method SaveCsv()
      modifies this`savedLog
      ensures savedLog == Some(rows)
    {
      savedLog := Some(rows);
    }
  }

  /** A finished run's saved log has one well-formed hit or miss row per
      star, for the stars in list order. */
  lemma FinishedLogCoversAllStars(t: StarTrial)
    requires t.Valid() && t.currentIndex == |t.stars|
    ensures t.savedLog.Some? && |t.savedLog.value| == |t.stars| + 1
    ensures StarIndices(t.savedLog.value) == Upto(|t.stars|)
    ensures forall i :: 1 <= i < |t.savedLog.value| ==> WellFormedTrial(t.savedLog.value[i])
  {
    RowsInStarOrder(t.rows, t.currentIndex);
  }
}
