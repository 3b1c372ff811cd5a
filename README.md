# GazeFlow gaze-interaction core, modelled in Dafny

GazeFlow is a set of Unity scripts for eye-tracking exercises on a VR headset.
This project models the deterministic engine inside those scripts and proves
its properties:

- **Per-tile dwell state** (`GazeTile`), module `GazeTiles`. Each tile records
  its first look once per session and completes once; a completed tile ignores
  enter, exit and completion calls until it is reset. The class `Tile` holds the
  fields. `Next`, `Emits`, `Run` and `Emitted` give the same behaviour as values,
  so that lemmas can reason about whole call histories.
- **Mosaic dwell tracker and session** (`MosaicGazeManager1`), modules
  `MosaicGaze` (the class `GazeManager`) and `MosaicBands` (its pure helpers).
  The manager:
  - picks a gaze source (eyes, then head, else none);
  - keeps one "current tile" slot whose dwell clock restarts on every switch
    and every miss;
  - counts, sums and logs completions to a CSV;
  - keeps the gaze and saccade metric lists;
  - ends the session after `sessionDuration` seconds, when it computes the
    summary (average dwell, completion percentage, rating and emoji);
  - can restart at any time.
- **Sequential reaction-time trial** (`StarGazeTest`), module `StarGaze`. Stars
  are armed one at a time. A trial ends on a hit or on a strict timeout, and
  the log holds exactly one row per finished trial, in star order. An
  unassigned entry in the star list stalls the run.
- **Fixation logger** (`GazeFragmentLogger`), module `FragmentLogger`. A
  two-state machine logs alternating Start and Stop rows and accumulates the
  fixation time while looking.
- **Double-sided mesh** (`TileDoubleSided`), module `DoubleSided`. The four
  copy loops of `MakeDoubleSided` run over real Dafny arrays.
- Module `GazeCommon` holds the shared values (`Option`, vectors, the eye
  sample) and sums and means of real sequences.

Modelling conventions:

- Engine time (`Time.time`) is a `real` parameter `now`. `GazeManager` and
  `StarTrial` keep a ghost `clock`: the time of their last state change
  (for `GazeManager`, the last frame that tracked a gaze sample or restarted
  the session; for `StarTrial`, its creation or the end of the last trial).
  Frames that change nothing leave it as it was. Their frame methods require
  `now >= clock`, because Unity's clock never runs backwards, and ensure
  `clock <= now`, so the next frame can follow. `Tile` takes `now` as a plain argument and `FixationLogger` the
  frame's `deltaTime`; neither keeps a clock.
- What the engine computes is an input: ray-cast results, whether each eye
  tracks, the dot product and the distance moved.
- CSV lines are datatype rows held in a sequence. A file written out is an
  `Option` of that sequence.
- Tiles and meshes are objects, and the methods that change them say so in
  `modifies`.

## Model

| member | source | states |
|---|---|---|
| GazeTiles.Tile.constructor | Assets/Scripts/GazeTile.cs:19-24 | a new tile is not completed, has not been looked at, has first-look time -1 and is idle |
| GazeTiles.Tile.OnGazeEnter | Assets/Scripts/GazeTile.cs:100-111 | a completed tile is left unchanged; otherwise the first enter of a session records `now` as the first-look time, a later enter keeps the recorded time, and the tile turns active |
| GazeTiles.Tile.OnGazeExit | Assets/Scripts/GazeTile.cs:113-117 | a completed tile is left unchanged; otherwise only the visual state changes, back to idle |
| GazeTiles.Tile.OnGazeDwellComplete | Assets/Scripts/GazeTile.cs:119-144 | on a completed tile nothing changes and the callback is not invoked; otherwise the tile completes and stays active, and a callback that is present is invoked once with the tile index, the reported first-look time and the dwell duration |
| GazeTiles.Tile.ResetTile | Assets/Scripts/GazeTile.cs:147-153 | the tile returns to the fresh state: not completed, not looked at, first-look time -1, idle |
| GazeTiles.FirstEnterRecords | Assets/Scripts/GazeTile.cs:100-108 | an enter records its time only on a tile that is neither completed nor already looked at; any other enter keeps the first-look time |
| GazeTiles.FirstLookKept | Assets/Scripts/GazeTile.cs:104-108 | once the first-look time is recorded, no sequence of enters, exits and completions without a reset changes it |
| GazeTiles.CompletedIsFrozen | Assets/Scripts/GazeTile.cs:100-121 | from a completed state, any reset-free history leaves the tile unchanged and never reaches the callback |
| GazeTiles.AtMostOneCompletion | Assets/Scripts/GazeTile.cs:119-144 | between resets the callback runs at most once, never for a tile that starts completed, and after it has run the tile is completed |
| GazeTiles.CompletionsPerSession | Assets/Scripts/GazeTile.cs:119-153 | over any history the callback runs at most once more than the number of resets (no more than the number of resets when the tile starts completed) |
| GazeTiles.CompletionReportsFirstEnter | Assets/Scripts/GazeTile.cs:135-143 | once a positive first-look time is recorded, every later completion before a reset reports that time and the tile's own index |
| MosaicBands.EffectiveLayerMaskRule | Assets/Scripts/MosaicGazeManager1.cs:199-200 | an empty tile mask becomes a mask that includes all 32 layers; a non-empty mask is passed through unchanged |
| MosaicBands.EffectiveLayerMaskNeverEmpty | Assets/Scripts/MosaicGazeManager1.cs:200 | the mask handed to the ray cast always has at least one layer bit set |
| MosaicBands.AverageDwellAtLeastThreshold | Assets/Scripts/MosaicGazeManager1.cs:318 | when every completion took at least the threshold, so does the zero-guarded average dwell |
| MosaicBands.CompletionPercentRange | Assets/Scripts/MosaicGazeManager1.cs:354 | for a count between 0 and the tile count, the zero-guarded completion percentage lies in [0, 100], and it is 100 if and only if there are tiles and all are completed; the manager meets that bound only because hit tiles are registered ones (see "Left out") |
| MosaicBands.BandIndexMonotone | Assets/Scripts/MosaicGazeManager1.cs:493-518 | a larger value never reaches fewer thresholds of a band table |
| MosaicBands.PerformanceRatingBands | Assets/Scripts/MosaicGazeManager1.cs:493-500 | the rating is the band of the percentage in the table 40/60/75/90 → Keep Going, Nice Try, Good Work, Great Job, Excellent |
| MosaicBands.SpeedEmojiBands | Assets/Scripts/MosaicGazeManager1.cs:502-508 | the speed emoji is the band of the average dwell in the table 0.8/1.2/1.8 → ⚡, ✨, 🌟, 💫 |
| MosaicBands.CompletionEmojiBands | Assets/Scripts/MosaicGazeManager1.cs:510-518 | the completion emoji is the band of the percentage in the table 20/40/60/80/100 → 🌙, 💫, ⭐, ✨, 🌟, 🎉 |
| MosaicBands.BandsMonotone | Assets/Scripts/MosaicGazeManager1.cs:493-518 | a higher percentage (or average dwell) never falls into a lower rating, completion or speed band |
| MosaicBands.FullCompletionEmoji | Assets/Scripts/MosaicGazeManager1.cs:510-512 | the party emoji is shown if and only if there are tiles and every one of them is completed |
| MosaicGaze.SelectGazeSource | Assets/Scripts/MosaicGazeManager1.cs:155-190 | the eyes are used exactly when both references are assigned and either eye tracks; the head exactly when they are not, the fallback is on and the head camera is set; otherwise the tick has no gaze |
| MosaicGaze.CsvLogAppend | Assets/Scripts/MosaicGazeManager1.cs:263-267 | logging a completion of at least the threshold keeps the CSV log consistent with the count and the dwell sum, each one higher |
| MosaicGaze.DwellTotalAtLeast | Assets/Scripts/MosaicGazeManager1.cs:257-267 | a log of n completions, each of at least the threshold, records a total dwell of at least n times the threshold |
| MosaicGaze.GazeWindowPush | Assets/Scripts/MosaicGazeManager1.cs:418-419 | appending a sample taken no earlier than the clock keeps positions and timestamps paired and the timestamps ascending |
| MosaicGaze.GazeWindowDrop | Assets/Scripts/MosaicGazeManager1.cs:440-444 | removing the oldest sample keeps the window paired and ascending |
| MosaicGaze.TrackKeepsMetrics | Assets/Scripts/MosaicGazeManager1.cs:413-445 | recording a sample taken no earlier than the clock keeps the window paired and ascending up to the sample's time, one positive speed per counted saccade, and the last sample time in [0, now], with the sample last in the window |
| MosaicGaze.RestartDuplicatesHeader | Assets/Scripts/MosaicGazeManager1.cs:286-297 | as written, the file started after k restarts holds exactly k + 1 header rows (one in the first session, two after the first restart), by induction on k |
| MosaicGaze.GazeManager.constructor | Assets/Scripts/MosaicGazeManager1.cs:68-107 | a new session at `now`: slot empty, counters zero, not ended, eye tracking assumed when both eye references are assigned, CSV holding only the header, all invariants established |
| MosaicGaze.GazeManager.Update | Assets/Scripts/MosaicGazeManager1.cs:121-227 | corrected: a restart takes priority and starts a fresh session (counters, slot and metric lists cleared, summary hidden, every tile fresh, the new CSV holding one header row, the eye-tracking flag kept); an ended session ignores the frame; a session past its duration ends with the slot's tile exited, every other tile unchanged and the slot emptied, counts, CSV, metrics, session start and eye-tracking flag kept, and the summary exactly `SummaryOf` the count, the tile count, the average dwell and the mean saccade speed; otherwise the frame's gaze is processed as `ProcessGaze` states |
| MosaicGaze.GazeManager.ProcessGaze | Assets/Scripts/MosaicGazeManager1.cs:151-226 | without a gaze source nothing changes; otherwise the source is recorded, the metrics become `Track` of the old metrics and the sample, every tile other than the hit tile and the slot's previous tile is unchanged, and the slot, count, dwell sum, CSV and the two tiles involved are what `HitOutcome` gives for the ray-cast result: a new tile exits the old one, is entered and becomes current starting `now`; the current tile completes, and is counted, summed and logged, once its streak reaches the threshold; a non-tile result exits the current tile and empties the slot |
| MosaicGaze.GazeManager.FollowGaze | Assets/Scripts/MosaicGazeManager1.cs:196-226 | the metrics become `Track` of the old metrics and the sample, then the ray-cast result updates the slot, count, dwell sum, CSV and the two tiles involved as `HitOutcome` gives, and every other tile is unchanged |
| MosaicGaze.GazeManager.HandleRayHit | Assets/Scripts/MosaicGazeManager1.cs:202-226 | `HitOutcome` of the before-values: a new tile exits the previous one, is entered and becomes current starting `now`, with nothing counted; on the current tile a completed tile or a short streak changes nothing; a streak of at least the threshold completes the tile, adds one to the count, the dwell to the sum and one CSV row, and empties the slot; a miss or a hit without a tile exits the current tile and empties the slot; no tile other than the hit tile and the slot's previous tile changes |
| MosaicGaze.GazeManager.HandleGazeOnTile | Assets/Scripts/MosaicGazeManager1.cs:229-275 | switching to a new tile exits the old one, enters the new one and starts its clock now, with no completion on that tick; on the current tile a completed tile or a short streak changes nothing; a streak of at least the threshold adds one to the count, the dwell to the sum and one CSV row, completes the tile and empties the slot; no other tile changes |
| MosaicGaze.GazeManager.SwitchTo | Assets/Scripts/MosaicGazeManager1.cs:231-248 | the previous tile receives an exit, the hit tile an enter, the hit tile becomes current with start time `now`, and no other tile changes |
| MosaicGaze.GazeManager.CompleteCurrent | Assets/Scripts/MosaicGazeManager1.cs:257-273 | the current tile completes, the completion is counted, summed and logged with the reported first-look time, and the slot is emptied |
| MosaicGaze.GazeManager.CountCompletion | Assets/Scripts/MosaicGazeManager1.cs:263-268 | the callback adds exactly 1 to the count and the dwell to the sum, and appends the completion's row to the CSV |
| MosaicGaze.GazeManager.ClearCurrentTile | Assets/Scripts/MosaicGazeManager1.cs:277-284 | the current tile, if any, receives an exit; the slot is empty and the start time 0; no other tile changes |
| MosaicGaze.GazeManager.EndSession | Assets/Scripts/MosaicGazeManager1.cs:308-324 | the session is marked ended, the slot's tile receives an exit, every other tile is unchanged and the slot is emptied, counts and CSV kept; the summary is built from the count, the tile count, the zero-guarded average dwell (at least the threshold when anything completed) and the mean saccade speed; its percentage lies in [0, 100], a bound that rests on hit tiles being registered ones |
| MosaicGaze.GazeManager.ShowSummaryCanvas | Assets/Scripts/MosaicGazeManager1.cs:326-411 | the panel shows the given count and average dwell with the tile count, the mean saccade speed, and the percentage, rating and emojis derived from them |
| MosaicGaze.GazeManager.CompletedWithinTiles | Assets/Scripts/MosaicGazeManager1.cs:249-268 | the completion count never exceeds the number of tiles, because each registered tile completes at most once per session; this rests on hit tiles being registered ones (see "Left out") |
| MosaicGaze.GazeManager.TrackGazeMetrics | Assets/Scripts/MosaicGazeManager1.cs:413-445 | the sample is appended to the window and the oldest one is dropped when it is more than 10 s old; a saccade is counted, with speed distance/time, exactly when the previous sample was taken at a positive time (`lastGazeTime > 0`), the point moved more than 0.1 and time advanced; the new metrics are `Track` of the old; saccade count and speed list stay equal in length |
| MosaicGaze.GazeManager.CalculateAverageSaccadeSpeed | Assets/Scripts/MosaicGazeManager1.cs:447-454 | the loop returns the mean of the recorded speeds, 0 when there are none, and the result is positive exactly when a saccade was counted |
| GazeCommon.MeanWithin | Assets/Scripts/MosaicGazeManager1.cs:447-454 | the mean of a non-empty speed list lies between any lower and upper bound of its elements |
| GazeCommon.MeanPositive | Assets/Scripts/MosaicGazeManager1.cs:447-454 | the mean of positive speeds is positive if and only if the list is non-empty |
| MosaicGaze.GazeManager.RestartSession | Assets/Scripts/MosaicGazeManager1.cs:531-572 | corrected: every counter, the slot and every metric list are cleared, the session restarts at `now`, the summary is hidden, every registered tile is fresh, no tile is completed, the eye-tracking flag is kept and the new CSV holds exactly one header row |
| MosaicGaze.GazeManager.ResetSessionState | Assets/Scripts/MosaicGazeManager1.cs:535-541 | not ended, started at `now`, count and sum zero, slot empty |
| MosaicGaze.GazeManager.ResetMetrics | Assets/Scripts/MosaicGazeManager1.cs:543-550 | the metric lists are empty and the metric counters and last sample are zero |
| MosaicGaze.GazeManager.ResetTiles | Assets/Scripts/MosaicGazeManager1.cs:559-566 | the loop leaves every registered tile in the fresh state, skipping null entries |
| MosaicGaze.GazeManager.InitCsv | Assets/Scripts/MosaicGazeManager1.cs:286-297 | corrected: a new CSV file holds exactly one header row |
| StarGaze.HitRowWellFormed | Assets/Scripts/StarGazeTest.cs:98-103 | a hit at a time no earlier than the start logs a well-formed row whose reaction time is exactly the elapsed time |
| StarGaze.TrialLogAppend | Assets/Scripts/StarGazeTest.cs:98-117 | appending a well-formed row for the armed star extends a log of k trials to one of k + 1 |
| StarGaze.RowsInStarOrder | Assets/Scripts/StarGazeTest.cs:98-136 | after k trials the log's star indices are exactly 0, 1, …, k-1 in order: no star is skipped, repeated or out of order |
| StarGaze.StarTrial.constructor | Assets/Scripts/StarGazeTest.cs:27-39 | the header row comes first; the first star is armed at `now`; with no stars the run finishes and saves its log at once; with an unassigned first entry the run stalls |
| StarGaze.StarTrial.Update | Assets/Scripts/StarGazeTest.cs:41-118 | missing references, an empty star list, both eyes off or no armed star (finished or stalled) change nothing; a hit on the armed star logs a hit row and advances (a hit wins over a timeout); otherwise a wait strictly longer than the limit logs a miss row and advances; otherwise nothing changes; the saved file changes only when the run reaches the end of the star list; the ghost clock moves to `now` when a trial ends and never passes `now` |
| StarGaze.StarTrial.NextStar | Assets/Scripts/StarGazeTest.cs:121-139 | the index advances by exactly one; past the last star the run finishes and saves the log; an assigned star is armed at `now`; at an unassigned entry the run stalls unarmed with start time and file unchanged |
| StarGaze.StarTrial.OnApplicationQuit | Assets/Scripts/StarGazeTest.cs:150-153 | quitting writes the log as it stands |
| StarGaze.StarTrial.SaveCsv | Assets/Scripts/StarGazeTest.cs:155-177 | the file receives every row, header first |
| StarGaze.FinishedLogCoversAllStars | Assets/Scripts/StarGazeTest.cs:121-131 | a finished run's saved log has exactly one well-formed row per star, for the stars in list order |
| FragmentLogger.StopsMatchStarts | Assets/Scripts/GazeFragmentLogger.cs:47-71 | in an alternating log the Stop rows equal the Start rows in number, or are one fewer when the log ends with a Start |
| FragmentLogger.AlternatingAppend | Assets/Scripts/GazeFragmentLogger.cs:50-70 | appending the row kind that is due next keeps the log alternating |
| FragmentLogger.FixationLogger.constructor | Assets/Scripts/GazeFragmentLogger.cs:22-33 | the log starts with the header row; not looking; fixation time 0 |
| FragmentLogger.FixationLogger.Update | Assets/Scripts/GazeFragmentLogger.cs:35-72 | with a reference missing nothing changes; looking is `dot > 1 - hitRadius`; starting to look logs one Start row and restarts the fixation time before adding the frame's time; going on looking adds the frame's time and logs nothing; stopping logs one Stop row with the accumulated time and zeroes it; going on not looking changes nothing |
| FragmentLogger.FixationLogger.AppendRow | Assets/Scripts/GazeFragmentLogger.cs:55 | appends exactly the given row and keeps the log alternating |
| FragmentLogger.FixationLogger.OnApplicationQuit | Assets/Scripts/GazeFragmentLogger.cs:74-77 | quitting writes the log as it stands |
| FragmentLogger.FixationLogger.SaveCsv | Assets/Scripts/GazeFragmentLogger.cs:80-105 | the file receives every row, header first |
| FragmentLogger.StopCountOfLogger | Assets/Scripts/GazeFragmentLogger.cs:32-70 | in the logger's log the Stop rows equal the Start rows in number while not looking, and are one fewer while looking |
| DoubleSided.BackFacesAppend | Assets/Scripts/TileDoubleSided.cs:58-64 | back faces of a concatenation are the concatenation of the back faces |
| DoubleSided.BackFacesStep | Assets/Scripts/TileDoubleSided.cs:58-64 | one more loop step appends the triangle (i+2, i+1, i) shifted by n |
| DoubleSided.BackFacesInRange | Assets/Scripts/TileDoubleSided.cs:61-63 | if every original index is in [0, n), every back-face index is in [n, 2n) |
| DoubleSided.BackFacesInvolution | Assets/Scripts/TileDoubleSided.cs:58-64 | reversing the winding twice and shifting back by n restores the original triangles |
| DoubleSided.DoubledIndicesInBounds | Assets/Scripts/TileDoubleSided.cs:52-64 | if the original indices address the vertex array, every index of the doubled triangle list addresses the doubled vertex array |
| DoubleSided.CopyFront | Assets/Scripts/TileDoubleSided.cs:36-41 | the first n entries of the new vertex, uv and normal arrays are the originals, and the rest keep their contents |
| DoubleSided.CopyBack | Assets/Scripts/TileDoubleSided.cs:44-49 | entries n to 2n-1 are the vertices, the first n uvs and the negated first n normals, and everything else keeps its contents |
| DoubleSided.CopyFrontTriangles | Assets/Scripts/TileDoubleSided.cs:52-55 | the first half of the new triangle array is the original triangles |
| DoubleSided.CopyBackTriangles | Assets/Scripts/TileDoubleSided.cs:58-64 | the second half of the new triangle array is the back faces of the original triangles |
| DoubleSided.BuildDoubleSided | Assets/Scripts/TileDoubleSided.cs:23-64 | the loops fail (out of range) exactly when a uv or normal is missing for a vertex or the triangle list is not whole triangles; otherwise the arrays are the doubled vertices, the doubled uvs and the front and negated normals (each followed by default zeros), and the triangles followed by their back faces |
| DoubleSided.MakeDoubleSided | Assets/Scripts/TileDoubleSided.cs:11-74 | without a filter or a mesh nothing changes; when the loops would fail the filter keeps its mesh; otherwise the filter receives a new mesh holding the doubled arrays, whose triangle indices all address its vertices when the original's addressed the original vertices |

## Left out

- Engine and SDK calls are not modelled: `Physics.Raycast`, `GetComponent`, transforms, materials, the material enhancer, visual effects, audio, TMPro text, `XRSettings`, `Debug.Log` and the debug gaze cursor. Their outcomes are inputs: a ray-cast result, the eye flags and the tiles as objects.
- Vector arithmetic and IEEE `float` rounding are not modelled. Ray origin and direction, `Vector3.Distance` and `Vector3.Dot` arrive as their results (`gazePoint`, `moved`, `dot`). Times and durations are exact reals.
- File paths, directories, time-stamped file names and `:F3` formatting are not modelled. A CSV is a sequence of row values, and a written file is that sequence.
- Tile visuals are reduced to idle or active. Scales, materials, the floating animation in `GazeTile.Update` and `GazeTile.Start`/`MakeDoubleSided` wiring are left out. So are star highlighting and `SetAllStarScale` in `StarGazeTest`.
- `MosaicGazeManager1.ShowSummaryCanvas` is modelled only as the fallback panel's values, kept in `summary`. The `summaryUIController` path hands the same counts to a UI script that is not part of this model. Canvas placement and text layout are left out.
- `CalculateAverageLookSpeed`, `CalculateTotalGazeDistance`, `BuildAnalysisText` and `OnTileCompleted`'s debug log only produce display text, so they are left out. The distance total they read is modelled in `TrackGazeMetrics`. The completion callback handed to each tile (MosaicGazeManager1.cs:263-268) is `CountCompletion`.
- The ray-cast hit is an input. The layer mask the cast uses is modelled separately, as `EffectiveLayerMask`.
- MosaicGaze.GazeManager.Update: requires a hit tile to be one of the registered `tiles`, so the case of an unregistered tile on the tile layer is not modelled. In the source such a tile still completes and is counted: `_completedCount` can then exceed `tiles.Length`, the percentage can pass 100 so that 🎉 and "Excellent!" appear early, and `RestartSession` never resets that tile, so it stays completed across sessions. The count bounds of `CompletedWithinTiles`, `EndSession` and `CompletionPercentRange` hold only under this restriction. `ProcessGaze`, `FollowGaze`, `HandleRayHit`, `HandleGazeOnTile` and `SwitchTo` carry the same requirement.
- MosaicGaze.GazeManager.constructor: requires the registered tiles to start uncompleted, which is the state of a freshly loaded tile. It also requires `now >= 0`, as Unity's clock is.
- FragmentLogger.FixationLogger.Update: requires `deltaTime >= 0`, as Unity's frame time is. This keeps logged fixation times non-negative.
- The removal step in `TrackGazeMetrics` drops at most one stale sample per call, as the code does. The window can therefore hold samples older than 10 s. The comment's "last 10 seconds" is not a property of the code, and the model follows the code.
- The triangle index offset `triangles[i] + vertices.Length` is exact here. C# `int` wrap-around on meshes of more than 2^31 vertices is not modelled.
- `MeshFilter.mesh` and `sharedMesh` are one field. The mesh name, `RecalculateBounds` and the partial writes made before an out-of-range exception are left out, because the new arrays are discarded when the loops throw.
- In `StarGazeTest` the stars are identified by integers that stand for their transforms, and an unassigned list entry is `None`. Arming such an entry throws in the source (`s.localScale` at StarGazeTest.cs:134), after `currentIndex++` and before `waitingForGaze = true`; the model stops `NextStar` at that point, and the run stalls there. The exception itself and its log are not modelled. The eye references are a boolean input.
- `RestartSession` is split into helper methods that run in the source's order. The summary canvas hide is the assignment `summary := None`.
- The restart key and the input-system polling are a boolean input.

## Findings

| source | as written | input that shows it | evidently intended | confidence | as-written member | corrected member |
|---|---|---|---|---|---|---|
| Assets/Scripts/MosaicGazeManager1.cs:286-297 | `InitCsv` appends the header to `_csvBuilder`, which is never cleared, and writes the whole builder to the new file | start a session, then press R once: the new file begins with two `tileIndex,firstLookTime,dwellDuration` lines (k + 1 after k restarts) | each new CSV file starts with exactly one header row | not executed | MosaicGaze.RestartDuplicatesHeader | MosaicGaze.GazeManager.InitCsv |
