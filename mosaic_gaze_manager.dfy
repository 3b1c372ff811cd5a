/** MosaicGazeManager1: the dwell tracker of the mosaic scene. Each tick it
    picks a gaze source, records gaze metrics, and feeds the ray-cast result
    to a single "current tile" slot whose dwell clock restarts on every
    switch and every miss, so a tile completes only after one uninterrupted
    streak of at least `dwellThreshold` seconds. Completions are counted,
    summed and logged as CSV rows; the session ends after `sessionDuration`
    seconds and can be restarted at any time. */
module MosaicGaze {
  import opened GazeCommon
  import opened GazeTiles
  import opened MosaicBands

  /** Where the gaze ray of a tick comes from. */
  datatype GazeSource = EyeGaze | HeadGaze | NoGaze

  /** Eyes first (when both references are assigned and either eye tracks),
      then the head camera if the fallback is enabled and the camera is set;
      otherwise there is no usable gaze this tick. */
  function SelectGazeSource(eyes: EyeSample, useHeadFallback: bool, headCamPresent: bool): (r: GazeSource)
    ensures r == EyeGaze <==> eyes.Tracking()
    ensures r == HeadGaze <==> !eyes.Tracking() && useHeadFallback && headCamPresent
    ensures r == NoGaze <==> !eyes.Tracking() && !(useHeadFallback && headCamPresent)
  {
    if eyes.Tracking() then EyeGaze
    else if useHeadFallback && headCamPresent then HeadGaze
    else NoGaze
  }

  /** The outcome of the gaze ray cast: nothing hit, an object without a
      `GazeTile`, or a tile. */
  datatype RayHit = Miss | HitOther | HitTile(tile: Tile)
  {
    /** The tile hit, if any. */
    function Target(): Tile?
    {
      if HitTile? then tile else null
    }
  }

  /** A row of the completion CSV (`tileIndex,firstLookTime,dwellDuration`). */
  datatype CsvRow = Header | Activation(tileIndex: int, firstLook: real, dwell: real)

  /** The dwell slot (tile and streak start) with the completion count, the
      dwell sum and the CSV rows. */
  datatype Slot = Slot(tile: Tile?, start: real, count: int, sum: real, rows: seq<CsvRow>)

  /** What the end-of-session summary panel shows. */
  datatype Summary = Summary(completed: int, totalTiles: int, avgDwell: real, percent: real,
                             rating: Rating, completionEmoji: Emoji, speedEmoji: Emoji,
                             avgSaccadeSpeed: real)

  function SummaryOf(completed: int, totalTiles: int, avgDwell: real, avgSaccadeSpeed: real): Summary
  {
    var percent := CompletionPercent(completed, totalTiles);
    Summary(completed, totalTiles, avgDwell, percent, GetPerformanceRating(percent),
            GetCompletionEmoji(percent), GetSpeedEmoji(avgDwell), avgSaccadeSpeed)
  }

  /** The dwell duration a CSV row records; the header records none. */
  function DwellOf(r: CsvRow): real
  {
    if r.Activation? then r.dwell else 0.0
  }

  /** The dwell durations recorded in a CSV, summed from the top. */
  function DwellTotal(rows: seq<CsvRow>): real
  {
    if rows == [] then 0.0 else DwellTotal(rows[..|rows| - 1]) + DwellOf(rows[|rows| - 1])
  }

  /** The CSV log of a session: the header, then one row per completion,
      each for a streak of at least `threshold`, with `count` rows and dwell
      durations summing to `sum`. */
  ghost predicate CsvLog(rows: seq<CsvRow>, count: int, sum: real, threshold: real)
  {
    && |rows| >= 1 && rows[0] == Header
    && count == |rows| - 1
    && (forall i :: 1 <= i < |rows| ==> rows[i].Activation? && rows[i].dwell >= threshold)
    && sum == DwellTotal(rows)
  }

  /** Logging one more completion keeps the log consistent. */
  lemma CsvLogAppend(rows: seq<CsvRow>, count: int, sum: real, threshold: real, row: CsvRow)
    requires CsvLog(rows, count, sum, threshold) && row.Activation? && row.dwell >= threshold
    ensures CsvLog(rows + [row], count + 1, sum + row.dwell, threshold)
  {
    assert (rows + [row])[..|rows|] == rows;
  }

  /** A log of n completions, each of at least the threshold, sums to at
      least n times the threshold. */
  lemma {:induction false} DwellTotalAtLeast(rows: seq<CsvRow>, threshold: real)
    requires |rows| >= 1 && rows[0] == Header
    requires forall i :: 1 <= i < |rows| ==> rows[i].Activation? && rows[i].dwell >= threshold
    ensures DwellTotal(rows) >= ((|rows| - 1) as real) * threshold
  {
    if |rows| > 1 {
      DwellTotalAtLeast(rows[..|rows| - 1], threshold);
    } else {
      assert rows[..0] == [];
    }
  }

  predicate Sorted(s: seq<real>)
  {
    forall i, j :: 0 <= i < j < |s| ==> s[i] <= s[j]
  }

  /** The recent gaze samples: positions paired with ascending timestamps,
      none later than `clock`. */
  ghost predicate GazeWindow(positions: seq<Vec3>, timestamps: seq<real>, clock: real)
  {
    && |positions| == |timestamps|
    && Sorted(timestamps)
    && (forall i :: 0 <= i < |timestamps| ==> timestamps[i] <= clock)
  }

  /** A sample taken at a time no earlier than the clock extends the window,
      and that time becomes the clock. */
  lemma GazeWindowPush(positions: seq<Vec3>, timestamps: seq<real>, clock: real, now: real, p: Vec3)
    requires GazeWindow(positions, timestamps, clock) && clock <= now
    ensures GazeWindow(positions + [p], timestamps + [now], now)
  {
  }

  /** Dropping the oldest sample keeps the window. */
  lemma GazeWindowDrop(positions: seq<Vec3>, timestamps: seq<real>, clock: real)
    requires GazeWindow(positions, timestamps, clock) && |timestamps| > 0
    ensures GazeWindow(positions[1..], timestamps[1..], clock)
  {
  }

  /** The gaze metrics of the manager as one value. */
  datatype Metrics = Metrics(positions: seq<Vec3>, timestamps: seq<real>, speeds: seq<real>,
                             totalDistance: real, lastPosition: Vec3, lastTime: real, saccades: int)

  /** One gaze sample `point` at time `now`, `moved` away from the previous
      one. The sample joins the window; a saccade of speed `moved` / elapsed
      time is counted when a sample was taken at a positive time before, the
      point moved more than 0.1 and time advanced; the oldest sample (one at
      most) leaves the window when it is more than 10 s old. */
  function Track(m: Metrics, point: Vec3, now: real, moved: real): Metrics
  {
    var ps, ts := m.positions + [point], m.timestamps + [now];
    var delta := now - m.lastTime;
    var counted :=
      if m.lastTime > 0.0 && moved > 0.1 && delta > 0.0 then
        m.(speeds := m.speeds + [moved / delta], totalDistance := m.totalDistance + moved,
           saccades := m.saccades + 1)
      else m;
    if now - ts[0] > 10.0 then counted.(positions := ps[1..], timestamps := ts[1..], lastPosition := point, lastTime := now)
    else counted.(positions := ps, timestamps := ts, lastPosition := point, lastTime := now)
  }

  /** One positive speed per counted saccade. */
  ghost predicate SaccadeLog(speeds: seq<real>, count: int)
  {
    |speeds| == count && forall i :: 0 <= i < |speeds| ==> speeds[i] > 0.0
  }

  /** A sample taken no earlier than the clock keeps the window paired and
      ascending, every speed positive with one per saccade, and the last
      sample time within [0, now]; the sample's time becomes the clock. */
  lemma {:induction false} TrackKeepsMetrics(m: Metrics, point: Vec3, now: real, moved: real, clock: real)
    requires GazeWindow(m.positions, m.timestamps, clock) && SaccadeLog(m.speeds, m.saccades)
    requires 0.0 <= m.lastTime <= clock <= now
    ensures var r := Track(m, point, now, moved);
      && GazeWindow(r.positions, r.timestamps, now) && SaccadeLog(r.speeds, r.saccades)
      && 0.0 <= r.lastTime <= now
      && |r.timestamps| > 0 && r.timestamps[|r.timestamps| - 1] == now
  {
    GazeWindowPush(m.positions, m.timestamps, clock, now, point);
    GazeWindowDrop(m.positions + [point], m.timestamps + [now], now);
  }

  /** `InitCsv` as written: the header is appended to a builder that is never
      cleared, and the new file receives the whole builder. */
  function InitCsvAsWritten(builder: seq<CsvRow>): (seq<CsvRow>, seq<CsvRow>)
  {
    var b := builder + [Header];
    (b, b)
  }

  /** The builder and the file as written after the first session's `InitCsv`
      and `k` restarts. Tile rows go straight to the file, so the builder
      only ever receives headers. */
  function CsvAfterRestarts(k: nat): (seq<CsvRow>, seq<CsvRow>)
  {
    if k == 0 then InitCsvAsWritten([]) else InitCsvAsWritten(CsvAfterRestarts(k - 1).0)
  }

  /** `n` header rows. */
  function Headers(n: nat): seq<CsvRow>
  {
    if n == 0 then [] else Headers(n - 1) + [Header]
  }

  /** As written, the file started after `k` restarts holds the header `k + 1`
      times: once in the first session, twice after the first restart. */
  lemma {:induction false} RestartDuplicatesHeader(k: nat)
    ensures CsvAfterRestarts(k).0 == CsvAfterRestarts(k).1 == Headers(k + 1)
    ensures |CsvAfterRestarts(k).1| == k + 1
    ensures k >= 1 ==> CsvAfterRestarts(k).1[..2] == [Header, Header]
  {
    if k > 0 {
      RestartDuplicatesHeader(k - 1);
      if k >= 2 {
        assert Headers(k + 1)[..2] == Headers(k)[..2];
      }
    }
  }

  /** At most as many distinct tiles as there are entries in the tile array. */
  lemma {:induction false} DistinctTilesBound(s: seq<Tile?>)
    ensures |(set t: Tile | t in s)| <= |s|
  {
    if s != [] {
      var init := s[..|s| - 1];
      DistinctTilesBound(init);
      var last := s[|s| - 1];
      assert s == init + [last];
      if last == null {
        assert (set t: Tile | t in s) == (set t: Tile | t in init);
      } else {
        assert (set t: Tile | t in s) == (set t: Tile | t in init) + {last};
      }
    }
  }

  lemma {:induction false} SubsetAtMost<T>(a: set<T>, b: set<T>)
    requires a <= b
    ensures |a| <= |b|
  {
    if a != {} {
      var x :| x in a;
      SubsetAtMost(a - {x}, b - {x});
    }
  }

  /** The `MosaicGazeManager1` component. */
  class GazeManager {
    // Inspector settings
    const tiles: seq<Tile?>
    const dwellThreshold: real
    const sessionDuration: real
    const useHeadDirectionFallback: bool
    const headCamPresent: bool
    const tileLayer: int32

    // Session state
    var currentTile: Tile?
    var currentGazeStartTime: real
    var sessionStartTime: real
    var sessionEnded: bool
    var completedCount: int
    var dwellSum: real
    var usingEyeTracking: bool
    /** The rows written to this session's CSV file. */
    var csvRows: seq<CsvRow>
    /** The summary panel, when shown. */
    var summary: Option<Summary>

    // Metrics
    var gazePositions: seq<Vec3>
    var gazeTimestamps: seq<real>
    var saccadeSpeeds: seq<real>
    var totalGazeDistance: real
    var lastGazePosition: Vec3
    var lastGazeTime: real
    var totalSaccades: int

    /** The latest time the component has seen. */
    ghost var clock: real

    /** The registered tiles. */
    ghost function TileSet(): set<Tile>
    {
      set t: Tile | t in tiles
    }

    /** The registered tiles completed so far. */
    ghost function CompletedTiles(): set<Tile>
      reads TileSet()
    {
      set t | t in TileSet() && t.isCompleted
    }

    /** The slot holds a registered tile or nothing, and the count is the
        number of distinct registered tiles completed. */
    ghost predicate TilesValid()
      reads this`currentTile, this`completedCount, TileSet()
    {
      && (currentTile != null ==> currentTile in TileSet())
      && completedCount == |CompletedTiles()|
    }

    /** The CSV holds the header and one row per completion, each for a full
        streak, and `dwellSum` is the sum of their dwell durations. */
    ghost predicate CsvValid()
      reads this`csvRows, this`completedCount, this`dwellSum
    {
      CsvLog(csvRows, completedCount, dwellSum, dwellThreshold)
    }

    /** The gaze window pairs positions with ascending timestamps no later
        than the clock; one positive speed per counted saccade. */
    ghost predicate MetricsValid()
      reads this`gazePositions, this`gazeTimestamps, this`saccadeSpeeds, this`totalSaccades,
            this`lastGazeTime, this`clock
    {
      && GazeWindow(gazePositions, gazeTimestamps, clock)
      && SaccadeLog(saccadeSpeeds, totalSaccades)
      && 0.0 <= lastGazeTime <= clock
    }

    ghost predicate Valid()
      reads this, TileSet()
    {
      TilesValid() && CsvValid() && MetricsValid() && sessionStartTime <= clock
    }

    /** The metric fields as a value. */
    ghost function MetricsOf(): Metrics
      reads this`gazePositions, this`gazeTimestamps, this`saccadeSpeeds, this`totalGazeDistance,
            this`lastGazePosition, this`lastGazeTime, this`totalSaccades
    {
      Metrics(gazePositions, gazeTimestamps, saccadeSpeeds, totalGazeDistance, lastGazePosition,
              lastGazeTime, totalSaccades)
    }

    /** The dwell slot and the counters and CSV rows it feeds, as a value. */
    ghost function SlotOf(): Slot
      reads this`currentTile, this`currentGazeStartTime, this`completedCount, this`dwellSum, this`csvRows
    {
      Slot(currentTile, currentGazeStartTime, completedCount, dwellSum, csvRows)
    }

    /** The slot, which held `prev`, was emptied: `prev` (if any) received an
        exit, and no other tile, counter or CSV row changed. */
    twostate predicate SlotCleared(prev: Tile?)
      requires prev != null ==> prev in TileSet()
      reads this`currentTile, this`currentGazeStartTime, this`completedCount, this`dwellSum,
            this`csvRows, TileSet()
    {
      && currentTile == null && currentGazeStartTime == 0.0
      && completedCount == old(completedCount) && dwellSum == old(dwellSum) && csvRows == old(csvRows)
      && (prev != null ==> prev.State() == Next(old(prev.State()), Exit))
      && (forall t :: t in TileSet() && t != prev ==> t.State() == old(t.State()))
    }

    /** The state of tile `t`; an empty slot counts as a fresh tile. */
    ghost function StateOf(t: Tile?): TileState
      reads if t != null then {t} else {}
    {
      if t != null then t.State() else Fresh
    }

    /** What the dwell tracker did with the ray-cast result `hit` at time
        `now`, told by the slot, counters and CSV and the states of the two
        tiles involved; the slot was `before`, the hit tile was in state
        `seen` and the slot's tile in state `held`. A new tile: the slot's
        tile is exited, the new one entered and made current with its clock
        starting now. The current tile, completed or gazed at for less than
        the threshold: nothing changes. The current tile after a longer
        streak: it completes, is counted, summed and logged, and the slot is
        emptied. Anything else: the slot's tile is exited and the slot
        emptied. */
    ghost predicate HitOutcome(hit: RayHit, now: real, before: Slot, seen: TileState, held: TileState)
      reads this`currentTile, this`currentGazeStartTime, this`completedCount, this`dwellSum, this`csvRows
      reads if hit.HitTile? then {hit.tile} else {}
      reads if before.tile != null then {before.tile} else {}
    {
      match hit
      case HitTile(tile) =>
        if before.tile != tile then
          && SlotOf() == before.(tile := tile, start := now)
          && tile.State() == Next(seen, Enter(now))
          && (before.tile != null ==> before.tile.State() == Next(held, Exit))
        else if seen.completed || now - before.start < dwellThreshold then
          SlotOf() == before && tile.State() == seen
        else
          var dwell := now - before.start;
          && SlotOf() == Slot(null, 0.0, before.count + 1, before.sum + dwell,
                              before.rows + [Activation(tile.tileIndex, ReportedFirstLook(seen, now), dwell)])
          && tile.State() == Next(seen, DwellComplete(dwell, now))
      case _ =>
        && SlotOf() == before.(tile := null, start := 0.0)
        && (before.tile != null ==> before.tile.State() == Next(held, Exit))
    }

    /** `Start`: a new session at time `now` with no tile completed yet. */
    constructor (tiles: seq<Tile?>, dwellThreshold: real, sessionDuration: real,
                 useHeadDirectionFallback: bool, headCamPresent: bool, tileLayer: int32,
                 eyesAssigned: bool, now: real)
      requires now >= 0.0
      requires forall t :: t in tiles && t != null ==> !t.isCompleted
      ensures Valid() && clock == now
      ensures this.tiles == tiles && this.dwellThreshold == dwellThreshold
      ensures this.sessionDuration == sessionDuration && this.tileLayer == tileLayer
      ensures this.useHeadDirectionFallback == useHeadDirectionFallback
      ensures this.headCamPresent == headCamPresent
      ensures !sessionEnded && currentTile == null && currentGazeStartTime == 0.0
      ensures completedCount == 0 && dwellSum == 0.0 && sessionStartTime == now
      ensures usingEyeTracking == eyesAssigned
      ensures csvRows == [Header] && summary == None
    {
      this.tiles := tiles;
      this.dwellThreshold := dwellThreshold;
      this.sessionDuration := sessionDuration;
      this.useHeadDirectionFallback := useHeadDirectionFallback;
      this.headCamPresent := headCamPresent;
      this.tileLayer := tileLayer;
      usingEyeTracking := eyesAssigned;
      sessionEnded := false;
      currentTile := null;
      currentGazeStartTime := 0.0;
      completedCount := 0;
      dwellSum := 0.0;
      sessionStartTime := now;
      summary := None;
      csvRows := [Header];
      gazePositions, gazeTimestamps, saccadeSpeeds := [], [], [];
      totalGazeDistance, lastGazePosition, lastGazeTime, totalSaccades := 0.0, Vec3(0.0, 0.0, 0.0), 0.0, 0;
      clock := now;
      new;
      assert CompletedTiles() == {};
    }

    /** One frame. A restart request wins over everything; an ended session
        ignores the frame; a session past its duration ends; otherwise the
        frame's gaze is processed. `hit` is the result of the engine's ray
        cast along the selected gaze ray, with mask `EffectiveLayerMask(tileLayer)`. */
    method Update(now: real, restartPressed: bool, eyes: EyeSample, hit: RayHit,
                  gazePoint: Vec3, moved: real)
      requires Valid() && now >= clock && moved >= 0.0
      requires hit.HitTile? ==> hit.tile in TileSet()
      modifies this, TileSet()
      ensures Valid() && old(clock) <= clock <= now
      ensures restartPressed ==>
        && !sessionEnded && sessionStartTime == now && completedCount == 0 && dwellSum == 0.0
        && currentTile == null && currentGazeStartTime == 0.0 && clock == now
        && MetricsOf() == Metrics([], [], [], 0.0, Vec3(0.0, 0.0, 0.0), 0.0, 0)
        && summary == None && csvRows == [Header] && usingEyeTracking == old(usingEyeTracking)
        && (forall t :: t in TileSet() ==> t.State() == Fresh) && CompletedTiles() == {}
      ensures !restartPressed && old(sessionEnded) ==> unchanged(this) && unchanged(TileSet())
      ensures !restartPressed && !old(sessionEnded) && now - old(sessionStartTime) >= sessionDuration ==>
        && sessionEnded && SlotOf() == old(SlotOf()).(tile := null, start := 0.0)
        && (old(currentTile) != null ==> old(currentTile).State() == Next(old(currentTile.State()), Exit))
        && (forall t :: t in TileSet() && t != old(currentTile) ==> t.State() == old(t.State()))
        && MetricsOf() == old(MetricsOf()) && clock == old(clock)
        && usingEyeTracking == old(usingEyeTracking) && sessionStartTime == old(sessionStartTime)
        && summary == Some(SummaryOf(completedCount, |tiles|, AverageDwell(completedCount, dwellSum),
                                     Mean(saccadeSpeeds)))
        && (completedCount > 0 ==> summary.value.avgDwell >= dwellThreshold)
        && 0.0 <= summary.value.percent <= 100.0
      ensures !restartPressed && !old(sessionEnded) && now - old(sessionStartTime) < sessionDuration ==>
        var source := SelectGazeSource(eyes, useHeadDirectionFallback, headCamPresent);
        && !sessionEnded && sessionStartTime == old(sessionStartTime) && summary == old(summary)
        && (source == NoGaze ==> unchanged(this) && unchanged(TileSet()))
        && (source != NoGaze ==>
              && usingEyeTracking == (source == EyeGaze) && clock == now
              && MetricsOf() == Track(old(MetricsOf()), gazePoint, now, moved)
              && HitOutcome(hit, now, old(SlotOf()), old(StateOf(hit.Target())), old(StateOf(currentTile)))
              && (forall t :: t in TileSet() && t != hit.Target() && t != old(currentTile) ==> t.State() == old(t.State())))
    {
      if restartPressed {
        RestartSession(now);
        return;
      }
      if sessionEnded {
        return;
      }
      if now - sessionStartTime >= sessionDuration {
        EndSession();
        return;
      }
      ProcessGaze(now, eyes, hit, gazePoint, moved);
    }

    /** The gaze part of a frame of a running session. Without a gaze source
        nothing happens. Otherwise the source is remembered, the gaze point
        is recorded, and the ray-cast result `hit` drives the dwell tracker. `gazePoint` is the point 2 m along the selected ray
        and `moved` its distance from the previous gaze point. */
    method ProcessGaze(now: real, eyes: EyeSample, hit: RayHit, gazePoint: Vec3, moved: real)
      requires Valid() && now >= clock && moved >= 0.0
      requires hit.HitTile? ==> hit.tile in TileSet()
      modifies this`usingEyeTracking, this`clock, this`gazePositions, this`gazeTimestamps,
               this`saccadeSpeeds, this`totalGazeDistance, this`lastGazePosition, this`lastGazeTime,
               this`totalSaccades, this`currentTile, this`currentGazeStartTime, this`completedCount,
               this`dwellSum, this`csvRows, TileSet()
      ensures Valid()
      ensures var source := SelectGazeSource(eyes, useHeadDirectionFallback, headCamPresent);
        && (source == NoGaze ==> unchanged(this) && unchanged(TileSet()))
        && (source != NoGaze ==>
              && usingEyeTracking == (source == EyeGaze) && clock == now
              && MetricsOf() == Track(old(MetricsOf()), gazePoint, now, moved)
              && HitOutcome(hit, now, old(SlotOf()), old(StateOf(hit.Target())), old(StateOf(currentTile)))
              && (forall t :: t in TileSet() && t != hit.Target() && t != old(currentTile) ==> t.State() == old(t.State())))
    {
      var source := SelectGazeSource(eyes, useHeadDirectionFallback, headCamPresent);
      if source == NoGaze {
        return;
      }
      usingEyeTracking := source == EyeGaze;
      FollowGaze(now, hit, gazePoint, moved);
    }

    /** Records the gaze point, then hands the ray-cast result to the dwell
        tracker. */
    method FollowGaze(now: real, hit: RayHit, gazePoint: Vec3, moved: real)
      requires Valid() && now >= clock && moved >= 0.0
      requires hit.HitTile? ==> hit.tile in TileSet()
      modifies this`clock, this`gazePositions, this`gazeTimestamps,
               this`saccadeSpeeds, this`totalGazeDistance, this`lastGazePosition, this`lastGazeTime,
               this`totalSaccades, this`currentTile, this`currentGazeStartTime, this`completedCount,
               this`dwellSum, this`csvRows, TileSet()
      ensures Valid() && clock == now
      ensures MetricsOf() == Track(old(MetricsOf()), gazePoint, now, moved)
      ensures HitOutcome(hit, now, old(SlotOf()), old(StateOf(hit.Target())), old(StateOf(currentTile)))
      ensures forall t :: t in TileSet() && t != hit.Target() && t != old(currentTile) ==> t.State() == old(t.State())
    {
      TrackGazeMetrics(gazePoint, now, moved);
      HandleRayHit(hit, now);
    }

    /** The ray-cast result of a frame: a tile goes to `HandleGazeOnTile`,
        anything else empties the slot. */
    method HandleRayHit(hit: RayHit, now: real)
      requires Valid() && now == clock
      requires hit.HitTile? ==> hit.tile in TileSet()
      modifies this`currentTile, this`currentGazeStartTime, this`completedCount, this`dwellSum,
               this`csvRows, TileSet()
      ensures Valid()
      ensures HitOutcome(hit, now, old(SlotOf()), old(StateOf(hit.Target())), old(StateOf(currentTile)))
      ensures forall t :: t in TileSet() && t != hit.Target() && t != old(currentTile) ==> t.State() == old(t.State())
    {
      match hit
      case HitTile(t) => HandleGazeOnTile(t, now);
      case _ => ClearCurrentTile();
    }

    /** The dwell tracker for a tick whose ray hit tile `hit`. A tile other
        than the current one becomes current (the previous one is exited) and
        its dwell clock starts now, so the entry tick never completes. On the
        current, not yet completed tile, a streak of at least `dwellThreshold`
        completes it: it is counted, summed and logged once, and the slot is
        cleared. */
    method HandleGazeOnTile(hit: Tile, now: real)
      requires Valid() && hit in TileSet() && now == clock
      modifies this`currentTile, this`currentGazeStartTime, this`completedCount, this`dwellSum,
               this`csvRows, TileSet()
      ensures Valid()
      ensures old(currentTile) != hit ==>
        && currentTile == hit && currentGazeStartTime == now
        && completedCount == old(completedCount) && dwellSum == old(dwellSum) && csvRows == old(csvRows)
        && hit.State() == Next(old(hit.State()), Enter(now))
        && (old(currentTile) != null ==> old(currentTile).State() == Next(old(currentTile.State()), Exit))
      ensures old(currentTile) == hit && (old(hit.isCompleted) || now - old(currentGazeStartTime) < dwellThreshold) ==>
        unchanged(this) && unchanged(TileSet())
      ensures old(currentTile) == hit && !old(hit.isCompleted) && now - old(currentGazeStartTime) >= dwellThreshold ==>
        var dwell := now - old(currentGazeStartTime);
        && completedCount == old(completedCount) + 1 && dwellSum == old(dwellSum) + dwell
        && csvRows == old(csvRows) + [Activation(hit.tileIndex, ReportedFirstLook(old(hit.State()), now), dwell)]
        && hit.State() == Next(old(hit.State()), DwellComplete(dwell, now))
        && currentTile == null && currentGazeStartTime == 0.0
      ensures forall t :: t in TileSet() && t != hit && t != old(currentTile) ==> unchanged(t)
    {
      if currentTile != hit {
        SwitchTo(hit, now);
      } else {
        if hit.isCompleted {
          return;
        }
        var dwell := now - currentGazeStartTime;
        if dwell >= dwellThreshold {
          CompleteCurrent(dwell, now);
        }
      }
    }

    /** The gaze moved to another tile: the previous one, if any, is exited,
        and the new one is entered with its dwell clock starting now. */
    method SwitchTo(hit: Tile, now: real)
      requires Valid() && hit in TileSet() && currentTile != hit
      modifies this`currentTile, this`currentGazeStartTime, TileSet()
      ensures Valid()
      ensures currentTile == hit && currentGazeStartTime == now
      ensures hit.State() == Next(old(hit.State()), Enter(now))
      ensures old(currentTile) != null ==> old(currentTile).State() == Next(old(currentTile.State()), Exit)
      ensures forall t :: t in TileSet() && t != hit && t != old(currentTile) ==> unchanged(t)
    {
      if currentTile != null {
        currentTile.OnGazeExit();
      }
      currentTile := hit;
      currentGazeStartTime := now;
      hit.OnGazeEnter(now);
      assert CompletedTiles() == old(CompletedTiles());
    }

    /** The current tile's streak reached the threshold: the tile completes,
        the callback records the completion, and the slot is cleared. */
    method CompleteCurrent(dwell: real, now: real)
      requires Valid() && currentTile != null && !currentTile.isCompleted
      requires dwell >= dwellThreshold
      modifies this`currentTile, this`currentGazeStartTime, this`completedCount, this`dwellSum,
               this`csvRows, TileSet()
      ensures Valid()
      ensures var tile := old(currentTile);
        && completedCount == old(completedCount) + 1 && dwellSum == old(dwellSum) + dwell
        && csvRows == old(csvRows) + [Activation(tile.tileIndex, ReportedFirstLook(old(tile.State()), now), dwell)]
        && tile.State() == Next(old(tile.State()), DwellComplete(dwell, now))
      ensures currentTile == null && currentGazeStartTime == 0.0
      ensures forall t :: t in TileSet() && t != old(currentTile) ==> unchanged(t)
    {
      ghost var before := CompletedTiles();
      var notified := currentTile.OnGazeDwellComplete(dwell, now, true);
      assert CompletedTiles() == before + {old(currentTile)};
      CountCompletion(notified.value);
      currentTile := null;
      currentGazeStartTime := 0.0;
    }

    /** The completion callback: counts the completion, adds its dwell to the
        sum and appends its row to the CSV. */
    method CountCompletion(c: Completion)
      requires CsvValid() && c.dwell >= dwellThreshold
      modifies this`completedCount, this`dwellSum, this`csvRows
      ensures CsvValid()
      ensures completedCount == old(completedCount) + 1 && dwellSum == old(dwellSum) + c.dwell
      ensures csvRows == old(csvRows) + [Activation(c.tileIndex, c.firstLook, c.dwell)]
    {
      var row := Activation(c.tileIndex, c.firstLook, c.dwell);
      CsvLogAppend(csvRows, completedCount, dwellSum, dwellThreshold, row);
      completedCount := completedCount + 1;
      dwellSum := dwellSum + c.dwell;
      csvRows := csvRows + [row];
    }

    /** A miss, or a hit without a tile: exit the current tile, if any, and
        empty the slot; the next streak starts from zero. */
    method ClearCurrentTile()
      requires Valid()
      modifies this`currentTile, this`currentGazeStartTime, TileSet()
      ensures Valid()
      ensures currentTile == null && currentGazeStartTime == 0.0
      ensures old(currentTile) != null ==> old(currentTile).State() == Next(old(currentTile.State()), Exit)
      ensures forall t :: t in TileSet() && t != old(currentTile) ==> unchanged(t)
      ensures SlotCleared(old(currentTile))
    {
      if currentTile != null {
        currentTile.OnGazeExit();
        assert CompletedTiles() == old(CompletedTiles());
      }
      currentTile := null;
      currentGazeStartTime := 0.0;
    }

    /** Ends the session: the slot is cleared and the summary panel shows the
        completion count, the average dwell (at least the threshold whenever
        something completed), the completion percentage and their bands. */
    method EndSession()
      requires Valid()
      modifies this`sessionEnded, this`summary, this`currentTile, this`currentGazeStartTime, TileSet()
      ensures Valid()
      ensures sessionEnded && SlotOf() == old(SlotOf()).(tile := null, start := 0.0)
      ensures old(currentTile) != null ==> old(currentTile).State() == Next(old(currentTile.State()), Exit)
      ensures forall t :: t in TileSet() && t != old(currentTile) ==> t.State() == old(t.State())
      ensures summary == Some(SummaryOf(completedCount, |tiles|, AverageDwell(completedCount, dwellSum),
                                        Mean(saccadeSpeeds)))
      ensures completedCount > 0 ==> summary.value.avgDwell >= dwellThreshold
      ensures 0.0 <= summary.value.percent <= 100.0
    {
      sessionEnded := true;
      ClearCurrentTile();
      var avgDwell := AverageDwell(completedCount, dwellSum);
      ShowSummaryCanvas(completedCount, avgDwell);
      if completedCount > 0 {
        DwellTotalAtLeast(csvRows, dwellThreshold);
        AverageDwellAtLeastThreshold(completedCount, dwellSum, dwellThreshold);
      }
      CompletedWithinTiles();
      CompletionPercentRange(completedCount, |tiles|);
    }

    /** Shows the summary panel for `completed` tiles with average dwell
        `avgDwell`, adding the mean saccade speed. */
    method ShowSummaryCanvas(completed: int, avgDwell: real)
      modifies this`summary
      ensures summary == Some(SummaryOf(completed, |tiles|, avgDwell, Mean(saccadeSpeeds)))
    {
      var avgSaccadeSpeed := CalculateAverageSaccadeSpeed();
      summary := Some(SummaryOf(completed, |tiles|, avgDwell, avgSaccadeSpeed));
    }

    /** No more tiles complete than are registered. */
    lemma CompletedWithinTiles()
      requires TilesValid()
      ensures 0 <= completedCount <= |tiles|
    {
      SubsetAtMost(CompletedTiles(), TileSet());
      DistinctTilesBound(tiles);
    }

    /** Records one gaze sample: appends it to the position/timestamp window,
        counts a saccade when the point moved more than 0.1 since a previous
        sample taken at an earlier positive time, and drops the oldest sample
        (one at most) when it is more than 10 s old. */
    method TrackGazeMetrics(point: Vec3, now: real, moved: real)
      requires MetricsValid() && now >= clock && moved >= 0.0
      modifies this`gazePositions, this`gazeTimestamps, this`saccadeSpeeds, this`totalGazeDistance,
               this`lastGazePosition, this`lastGazeTime, this`totalSaccades, this`clock
      ensures MetricsValid() && clock == now
      ensures MetricsOf() == Track(old(MetricsOf()), point, now, moved)
      ensures var ts := old(gazeTimestamps) + [now];
              var ps := old(gazePositions) + [point];
              if now - ts[0] > 10.0 then gazeTimestamps == ts[1..] && gazePositions == ps[1..]
              else gazeTimestamps == ts && gazePositions == ps
      ensures var delta := now - old(lastGazeTime);
              if old(lastGazeTime) > 0.0 && moved > 0.1 && delta > 0.0 then
                && saccadeSpeeds == old(saccadeSpeeds) + [moved / delta]
                && totalGazeDistance == old(totalGazeDistance) + moved
                && totalSaccades == old(totalSaccades) + 1
              else
                && saccadeSpeeds == old(saccadeSpeeds)
                && totalGazeDistance == old(totalGazeDistance) && totalSaccades == old(totalSaccades)
      ensures lastGazePosition == point && lastGazeTime == now
      ensures |gazeTimestamps| > 0 && gazeTimestamps[|gazeTimestamps| - 1] == now
    {
      GazeWindowPush(gazePositions, gazeTimestamps, clock, now, point);
      clock := now;
      gazePositions := gazePositions + [point];
      gazeTimestamps := gazeTimestamps + [now];

      if lastGazeTime > 0.0 && moved > 0.1 {
        var timeDelta := now - lastGazeTime;
        if timeDelta > 0.0 {
          var speed := moved / timeDelta;
          saccadeSpeeds := saccadeSpeeds + [speed];
          totalGazeDistance := totalGazeDistance + moved;
          totalSaccades := totalSaccades + 1;
        }
      }

      lastGazePosition := point;
      lastGazeTime := now;

      if |gazeTimestamps| > 0 && now - gazeTimestamps[0] > 10.0 {
        GazeWindowDrop(gazePositions, gazeTimestamps, now);
        gazePositions := gazePositions[1..];
        gazeTimestamps := gazeTimestamps[1..];
      }
    }

    /** Mean saccade speed; 0 when no saccade was counted. Positive exactly
        when at least one saccade was counted. */
    method CalculateAverageSaccadeSpeed() returns (avg: real)
      ensures avg == Mean(saccadeSpeeds)
      ensures MetricsValid() ==> (avg > 0.0 <==> totalSaccades > 0)
    {
      if |saccadeSpeeds| == 0 {
        return 0.0;
      }
      var sum := 0.0;
      for i := 0 to |saccadeSpeeds|
        invariant sum == Sum(saccadeSpeeds[..i])
      {
        assert saccadeSpeeds[..i + 1][..i] == saccadeSpeeds[..i];
        sum := sum + saccadeSpeeds[i];
      }
      assert saccadeSpeeds[..|saccadeSpeeds|] == saccadeSpeeds;
      avg := sum / (|saccadeSpeeds| as real);
      if MetricsValid() {
        MeanPositive(saccadeSpeeds);
      }
    }

    /** Restart at time `now`: counters, dwell sum, slot and metric lists are
        cleared, the summary is hidden, a new CSV is started and every
        registered tile is reset. */
    method RestartSession(now: real)
      requires now >= 0.0
      modifies this, TileSet()
      ensures Valid() && clock == now
      ensures !sessionEnded && sessionStartTime == now
      ensures completedCount == 0 && dwellSum == 0.0
      ensures currentTile == null && currentGazeStartTime == 0.0
      ensures gazePositions == [] && gazeTimestamps == [] && saccadeSpeeds == []
      ensures totalGazeDistance == 0.0 && lastGazeTime == 0.0 && totalSaccades == 0
      ensures lastGazePosition == Vec3(0.0, 0.0, 0.0)
      ensures summary == None && csvRows == [Header] && usingEyeTracking == old(usingEyeTracking)
      ensures forall t :: t in TileSet() ==> t.State() == Fresh
      ensures CompletedTiles() == {}
    {
      ResetSessionState(now);
      ResetMetrics(now);
      summary := None;
      ResetTiles();
      InitCsv();
      assert CompletedTiles() == {};
    }

    /** The session fields of a new session started at `now`. */
    method ResetSessionState(now: real)
      modifies this`sessionEnded, this`sessionStartTime, this`completedCount, this`dwellSum,
               this`currentTile, this`currentGazeStartTime
      ensures !sessionEnded && sessionStartTime == now
      ensures completedCount == 0 && dwellSum == 0.0
      ensures currentTile == null && currentGazeStartTime == 0.0
    {
      sessionEnded := false;
      sessionStartTime := now;
      completedCount := 0;
      dwellSum := 0.0;
      currentTile := null;
      currentGazeStartTime := 0.0;
    }

    /** Empty gaze metrics, with the clock at `now`. */
    method ResetMetrics(now: real)
      requires now >= 0.0
      modifies this`gazePositions, this`gazeTimestamps, this`saccadeSpeeds, this`totalGazeDistance,
               this`lastGazePosition, this`lastGazeTime, this`totalSaccades, this`clock
      ensures MetricsValid() && clock == now
      ensures gazePositions == [] && gazeTimestamps == [] && saccadeSpeeds == []
      ensures totalGazeDistance == 0.0 && lastGazeTime == 0.0 && totalSaccades == 0
      ensures lastGazePosition == Vec3(0.0, 0.0, 0.0)
    {
      gazePositions := [];
      gazeTimestamps := [];
      saccadeSpeeds := [];
      totalGazeDistance := 0.0;
      lastGazePosition := Vec3(0.0, 0.0, 0.0);
      lastGazeTime := 0.0;
      totalSaccades := 0;
      clock := now;
    }

    /** Resets every registered tile, in order. */
    method ResetTiles()
      modifies TileSet()
      ensures forall t :: t in TileSet() ==> t.State() == Fresh
    {
      for i := 0 to |tiles|
        invariant forall j :: 0 <= j < i && tiles[j] != null ==> tiles[j].State() == Fresh
      {
        if tiles[i] != null {
          tiles[i].ResetTile();
        }
      }
      forall t | t in TileSet()
        ensures t.State() == Fresh
      {
        var j :| 0 <= j < |tiles| && tiles[j] == t;
      }
    }

    /** Starts a new CSV file holding only the header row. */
    method InitCsv()
      modifies this`csvRows
      ensures csvRows == [Header]
    {
      csvRows := [Header];
    }
  }
}
