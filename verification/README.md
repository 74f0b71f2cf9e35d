# Verified model of the Rollshot agent and action crates

Rollshot records what a person does on screen and turns it into a reviewed,
exported guide; long work runs as jobs, and material changes of an agent task
leave audit evidence. This project models the parts of it that carry state and
proves what they guarantee over whole runs. `dafny verify dfyconfig.toml` checks
everything.

Each stateful component comes in two layers. A `...Model` module gives every
locked section or operation as a function (or, where the code leaves a choice
open, a relation) on values; an object module (`JobRegistry`, `DetectorObject`,
`RecorderObject`, `FrameStoreObject`, `GuideObject`, `CaptionObject`, the classes
of `FrameCache` and `Events`, the renderers of `Storyboard`) has the code's own
fields, loops and in-place updates, and its methods are proved to compute
exactly those functions. The theorem modules then speak about every run: what is
always kept, and what every call answers, told without those functions from the
history of the run (`JobAnswers`), from the planes shown (`DetectorStory`), from
the words and revisions (`CaptionAnswers`), from the snapshots (`AuditTheorems`).

| part | modules |
|---|---|
| live job registry | `JobModel`, `JobRuns`, `JobPruning`, `JobInvariant`, `JobSafety`, `JobTheorems`, `JobAnswers`, `JobLosses`, `JobReach`, `JobRegistry` |
| recording | `Metrics`, `MetricTheorems`, `DetectorModel`, `DetectorObject`, `DetectorInvariant`, `DetectorRuns`, `DetectorTheorems`, `DetectorStory`, `DetectorViews`, `FrameStoreModel`, `FrameStoreObject`, `FrameStoreFacts`, `RecorderModel`, `RecorderObject`, `RecorderInvariant`, `RecorderRuns`, `RecorderTheorems`, `Events` |
| guide and captions | `GuideModel`, `GuideObject`, `GuideTheorems`, `CaptionModel`, `CaptionObject`, `CaptionAnswers` |
| frame cache | `FrameCache` |
| storyboard | `StoryboardModel`, `Storyboard`, `StoryboardFacts` |
| audit and product tasks | `AuditModel`, `AuditTheorems`, `ProductTasks` |
| shared | `Prelude`, `Models`, `Arithmetic`, `Text` |

## How the system is read

- Jobs: each mutex-guarded section is one atomic step, and the cancel callback,
  which runs outside the lock, is a step of its own that may come at any later
  moment. A run (`JobSafety.Run`) is any interleaving of steps. The history in
  `JobRuns` only records calls, their answers and what states were seen;
  `JobTheorems.SeenInRun` shows that it means what it says. A new job id is
  assumed not to have been used. `sort_by_key` runs over hash-map order, so
  `Pruned` holds of every outcome some order of equal times can give; for
  tombstones it also allows any choice of which expired ids find room.
- The diagram in `crates/rollshot-agent/src/jobs.rs:255-259` leaves out
  transitions the code has: Starting to Succeeded or Failed, and Cancelling to
  Failed. The model follows the code: `JobTheorems.StepMoves` allows nothing
  else, and `JobReach.TransitionHappens` takes each of them.
- Tombstones: the comments promise ResultExpired for every expired or evicted
  result, but the code stops adding tombstones when 128 are there
  (`crates/rollshot-agent/src/jobs.rs:1081-1087`). `JobReach.ForgottenResult`
  builds a run in which a lost result is answered NotFound;
  `JobLosses.ExpiredAnswerIff` and `JobLosses.RoomWhenLost` say exactly which are.
- Correlation: the comment at `crates/rollshot-agent/src/audit.rs:490-495` says
  every field an event does not use must be absent. The code lets some through:
  `AuditTheorems.UnusedFieldAccepted` is such a record and
  `AuditTheorems.BeyondOwnIff` says exactly when. The code's own callers never
  build one.
- Captions: `apply` under an invalid durable context marks even an accepted or
  rejected suggestion Stale (`CaptionModel.OverwritesDecisionIff`).
- Luma, differences and text widths are exact reals, not `f32`. Job times, frame
  ids, revisions and counters of 64 bits are unbounded naturals; storyboard
  arithmetic is `u32` exactly, saturating, checked and unchecked as in the code.
- Identifiers, digests, progress values, results and pixels beyond their luma are
  opaque values with equality; audit strings keep their byte length. The text
  metric is an arbitrary function of string and style.
- What the code can panic on is a precondition: a cached picture whose bytes,
  alone or with the other cached ones, overflow a `usize`. The debug assertion that
  a ring reaches over its window is not assumed; release builds run without it.
- The dimensions an image promises before it is decoded are its dimensions after.

## Model

| member | source | states |
|---|---|---|
| `JobTheorems.ExactlyOneFate` | crates/rollshot-agent/src/jobs.rs:892-941 | In every run, a value accepted by `succeed` has exactly one of four fates: held, collected, expired or evicted, dropped by the cancel race; a held value is the accepted one, and under a clock that does not go back a loss means the time to live was over |
| `JobTheorems.HeldWasAccepted` | crates/rollshot-agent/src/jobs.rs:1294-1345 | Nothing is ever held but the value `succeed` accepted for that very job |
| `JobTheorems.CollectedOnce` | crates/rollshot-agent/src/jobs.rs:892-941 | No id is collected twice, and each answer was that job's own accepted value |
| `JobTheorems.CollectAnswersOk` | crates/rollshot-agent/src/jobs.rs:892-941 | In every run under a clock that does not go back, `collect` answers Ok if and only if the result was accepted, not lost to a cancellation, not collected before, and is younger than the time to live |
| `JobTheorems.CollectAnswersEver` | crates/rollshot-agent/src/jobs.rs:892-941 | Whatever the clock does: if and only if the result was accepted, met none of the other fates, and is younger than the time to live |
| `JobAnswers.CollectAnswers` | crates/rollshot-agent/src/jobs.rs:892-941 | All five answers of `collect`, in every run and under any clock, from what happened: NotFound or ResultExpired without a record, NotSucceeded if no success was accepted or it met a cancellation, AlreadyCollected if it was collected, ResultExpired if it was lost or is over its time, otherwise the accepted value |
| `JobTheorems.TombstonesLast` | crates/rollshot-agent/src/jobs.rs:1067-1149 | A tombstone stays one for the rest of the run; the set never exceeds 128 and, once full, never changes |
| `JobTheorems.TombstoneAnswers` | crates/rollshot-agent/src/jobs.rs:892-941 | A tombstoned id answers ResultExpired to every later `collect` |
| `JobLosses.TombstonesCountLosses` | crates/rollshot-agent/src/jobs.rs:1067-1149 | In every state of every run the tombstones are lost results, and exactly min(128, results lost so far) of them |
| `JobLosses.LostLeavesTombstone` | crates/rollshot-agent/src/jobs.rs:1081-1087 | A result lost to expiry or eviction has its tombstone, or all 128 are taken |
| `JobLosses.RoomWhenLost` | crates/rollshot-agent/src/jobs.rs:1081-1087 | While no more than 128 results have been lost each finds room when it is lost; once 128 were lost before it none does |
| `JobLosses.ExpiredAnswerIff` | crates/rollshot-agent/src/jobs.rs:892-941 | At every later `collect` a lost result answers ResultExpired exactly while its record is there or if it was a tombstone when lost, otherwise NotFound |
| `JobLosses.LostAlone` | crates/rollshot-agent/src/jobs.rs:892-941 | For a result lost on its own: exactly while its record is there or if fewer than 128 results were lost before it |
| `JobLosses.FewLossesKept` | crates/rollshot-agent/src/jobs.rs:892-941 | While no more than 128 results have been lost, every lost one answers ResultExpired |
| `JobReach.ForgottenResult` | crates/rollshot-agent/src/jobs.rs:1067-1149 | A run, under a clock that does not go back, in which an accepted result is lost and `collect` answers NotFound for it |
| `JobReach.PruneExists` | crates/rollshot-agent/src/jobs.rs:1067-1149 | Whatever the registry, time and purpose, some order and choice of tombstones makes a pruning: the relation the theorems quantify over is never empty |
| `JobTheorems.CallbackExactlyOnce` | crates/rollshot-agent/src/jobs.rs:855-889 | At every moment a job's cancel callback has run or is pending exactly once if some earlier state showed the job Cancelling, and never otherwise, shutdown included |
| `JobTheorems.SeenInRun` | crates/rollshot-agent/src/jobs.rs:265-290 | The observation sets of the history are exactly what some state of the run so far showed |
| `JobAnswers.CancelAnswers` | crates/rollshot-agent/src/jobs.rs:855-889 | The four outcomes of `cancel`, in every run, from whether the job is there and was ever seen terminal or Cancelling |
| `JobAnswers.ShutdownAnswers` | crates/rollshot-agent/src/jobs.rs:968-1013 | `shutdown` returns exactly the jobs that were never seen Cancelling or terminal |
| `JobAnswers.ReporterAnswers` | crates/rollshot-agent/src/jobs.rs:1189-1432 | Every answer of every reporter call, in every run, from the reporter's flag and what was seen of the job |
| `JobAnswers.FlagTells` | crates/rollshot-agent/src/jobs.rs:1294-1432 | A reporter's flag after a call: set by an accepted terminal report or one that found no job, taken back by one refused otherwise |
| `JobAnswers.StepWrites` | crates/rollshot-agent/src/jobs.rs:718-1486 | What every call writes to every record it leaves, field by field: revision, times, progress, failure category, diagnostics; and nothing to any other |
| `JobAnswers.RecordShowsReports` | crates/rollshot-agent/src/jobs.rs:1227-1292 | In every run a record shows its last accepted progress and its last 64 accepted diagnostics in order, and counts the earlier ones |
| `JobAnswers.WatchCounts` | crates/rollshot-agent/src/jobs.rs:718-1486 | The watch revision grows by one for every call that wrote to some record or admitted one, and for no other |
| `JobTheorems.CancelledNeverSucceeds` | crates/rollshot-agent/src/jobs.rs:1294-1345 | A job that was ever Cancelling is later only Cancelling, Cancelled or Failed, and none of its results is held or collected |
| `JobTheorems.TerminalAbsorbing` | crates/rollshot-agent/src/jobs.rs:271-290 | A job in a terminal state is in that state for as long as it has a record, whatever calls follow, and never comes back after that |
| `JobTheorems.StepMoves` | crates/rollshot-agent/src/jobs.rs:255-290 | Every call moves every job along one of the code's transitions or not at all; new records start Starting under unused ids, only terminal ones disappear |
| `JobReach.TransitionHappens` | crates/rollshot-agent/src/jobs.rs:255-290 | Each of those transitions is taken by one call in some run, those the comment's diagram leaves out included |
| `JobTheorems.AfterShutdown` | crates/rollshot-agent/src/jobs.rs:968-1013 | From a shutdown on, no job is Starting or Running, none is added and none newly succeeds |
| `JobTheorems.CapacityBounds` | crates/rollshot-agent/src/jobs.rs:718-828 | In every reachable state: at most 4 active jobs, at most 4 active or holding results, at most 131 records, at most 4 to evict |
| `JobTheorems.NeverTerminalCapacity` | crates/rollshot-agent/src/jobs.rs:771-786 | `admit` never answers TerminalCapacity, whatever the clock does |
| `JobTheorems.AdmitAnswer` | crates/rollshot-agent/src/jobs.rs:718-828 | In every run under a clock that does not go back, `admit` succeeds if and only if the registry is open, the admission valid, and fewer than four slots are held by active jobs or unexpired results |
| `JobTheorems.AdmitAnswersEver` | crates/rollshot-agent/src/jobs.rs:718-828 | Whatever the clock does: if and only if it is open, the admission valid, and fewer than four slots are held by active jobs or by unexpired results that pruning leaves |
| `JobAnswers.AdmitRefusals` | crates/rollshot-agent/src/jobs.rs:718-828 | Which refusal `admit` gives: a shutdown, then the authority, then the owner, then four active jobs, then four slots in use |
| `JobAnswers.OldestEvictedFirst` | crates/rollshot-agent/src/jobs.rs:1090-1149 | Making room keeps no record while a younger one of its class, or one with an uncollected result, goes |
| `JobTheorems.MakingRoomKeepsLiveResults` | crates/rollshot-agent/src/jobs.rs:1090-1149 | Under a clock that does not go back, making room never evicts a success that is uncollected and unexpired: its record survives unchanged |
| `JobTheorems.ActiveJobsHaveReporters` | crates/rollshot-agent/src/jobs.rs:1436-1486 | Every active job has its own live reporter that has reported nothing terminal: no slot leaks |
| `JobTheorems.StaleOnlyAfterTerminal` | crates/rollshot-agent/src/jobs.rs:1189-1225 | A reporter is stale, or does not find its job, only if an earlier state showed that job terminal |
| `JobTheorems.DroppedReporterFreesSlot` | crates/rollshot-agent/src/jobs.rs:1436-1486 | After its reporter is dropped a job is never active again |
| `JobSafety.RunKeeps` | crates/rollshot-agent/src/jobs.rs:718-1486 | Every state of every interleaving of calls, reporter calls and callbacks keeps the registry invariant (records, history, capacities) |
| `JobPruning.PruneCounts` | crates/rollshot-agent/src/jobs.rs:1067-1149 | Pruning evicts terminal records only, exactly the excess, and leaves at most 127 when making room |
| `JobPruning.PruneKeepsHeld` | crates/rollshot-agent/src/jobs.rs:1090-1149 | Under a clock that does not go back, a live result outlives every eviction the sort order may choose |
| `JobPruning.EvictedLive` | crates/rollshot-agent/src/jobs.rs:1090-1149 | Whatever the clock does, a live result is evicted only while one that ended no earlier is kept although it has expired |
| `JobRegistry.SortByTime` | crates/rollshot-agent/src/jobs.rs:1098-1118 | Some order of all terminal records by time, ties free: what sorting a hash map's entries guarantees |
| `JobRegistry.LiveJobRegistry.ExpireResults` | crates/rollshot-agent/src/jobs.rs:1067-1089 | The expiry pass over the map: every due uncollected result is dropped and marked, its id a tombstone while there is room |
| `JobRegistry.LiveJobRegistry.EvictFree` | crates/rollshot-agent/src/jobs.rs:1120-1132 | The first eviction loop removes, in order, records without an uncollected result until the excess is met |
| `JobRegistry.LiveJobRegistry.EvictUncollected` | crates/rollshot-agent/src/jobs.rs:1134-1148 | The second eviction loop continues with uncollected ones and leaves their ids as tombstones while there is room |
| `JobRegistry.LiveJobRegistry.PruneTerminals` | crates/rollshot-agent/src/jobs.rs:1067-1149 | The loops refine the pruning relation the run theorems quantify over |
| `JobRegistry.LiveJobRegistry.Admit` | crates/rollshot-agent/src/jobs.rs:718-828 | Same answer and same new registry as the specified section, for a pruning the relation allows |
| `JobRegistry.LiveJobRegistry.Cancel` | crates/rollshot-agent/src/jobs.rs:855-889 | The locked section of `cancel`: new registry and outcome |
| `JobRegistry.LiveJobRegistry.Collect` | crates/rollshot-agent/src/jobs.rs:892-941 | The locked section of `collect`, pruning first: new registry and answer |
| `JobRegistry.LiveJobRegistry.Prune` | crates/rollshot-agent/src/jobs.rs:960-965 | `prune` is a pruning that makes no room |
| `JobRegistry.LiveJobRegistry.Shutdown` | crates/rollshot-agent/src/jobs.rs:968-1013 | The locked section of `shutdown`: every open job becomes Cancelling and its id is returned |
| `JobRegistry.JobReporter.MarkRunning` | crates/rollshot-agent/src/jobs.rs:1191-1225 | New registry, reporter flag and answer of `mark_running` |
| `JobRegistry.JobReporter.ReportProgress` | crates/rollshot-agent/src/jobs.rs:1227-1253 | ... of `report_progress` |
| `JobRegistry.JobReporter.AppendDiagnostic` | crates/rollshot-agent/src/jobs.rs:1255-1292 | ... of `append_diagnostic`, the oldest of 64 entries dropped and counted |
| `JobRegistry.JobReporter.Succeed` | crates/rollshot-agent/src/jobs.rs:1294-1345 | ... of `succeed`: a result that meets a cancellation is dropped and the job ends Cancelled |
| `JobRegistry.JobReporter.Fail` | crates/rollshot-agent/src/jobs.rs:1348-1388 | ... of `fail` |
| `JobRegistry.JobReporter.ReportCancelled` | crates/rollshot-agent/src/jobs.rs:1390-1432 | ... of `cancelled` |
| `JobRegistry.JobReporter.Drop` | crates/rollshot-agent/src/jobs.rs:1436-1486 | A dropped reporter ends its job at the time of its last update |
| `Metrics.PlaneWidth` | crates/rollshot-action/src/metrics.rs:32-67 | The plane has at most `target` columns: ceil(sw / ceil(sw / t)) <= t |
| `Metrics.PlaneSized` | crates/rollshot-action/src/metrics.rs:32-67 | Blocks are square, just wide enough for the target, and the plane has just the blocks the picture needs |
| `Metrics.PixelInOneSample` | crates/rollshot-action/src/metrics.rs:32-67 | Every pixel of the picture is averaged into exactly one sample of the plane |
| `Metrics.DownsamplingConservesLuma` | crates/rollshot-action/src/metrics.rs:32-67 | The samples of the plane, each times the pixels of its block, add up to the luma of the whole picture |
| `Metrics.DownsampledPlane` | crates/rollshot-action/src/metrics.rs:32-67 | The plane is well formed and every sample is a luma value in [0, 255] |
| `Metrics.DownsampleLuma` | crates/rollshot-action/src/metrics.rs:32-67 | The nested loops compute that plane |
| `Metrics.ComputeStats` | crates/rollshot-action/src/metrics.rs:94-139 | The fused loop returns exactly the two separate metrics, for every mask and threshold |
| `Metrics.MaskedLumaDiff` | crates/rollshot-action/src/metrics.rs:141-164 | The mean normalised difference over unmasked samples; zero for planes of different size |
| `Metrics.ChangedAreaRatio` | crates/rollshot-action/src/metrics.rs:166-194 | The fraction of unmasked samples that changed by more than the threshold |
| `Metrics.NoDiffIffEqual` | crates/rollshot-action/src/metrics.rs:141-164 | The difference sums to zero if and only if all unmasked samples are equal |
| `Metrics.ChangedSamples` | crates/rollshot-action/src/metrics.rs:94-139 | Changed samples are among the unmasked ones and each contributes more than the threshold |
| `MetricTheorems.LumaOfColours` | crates/rollshot-action/src/metrics.rs:24-28 | The luma of grey is its level; of pure colours green is the brightest and blue the darkest |
| `MetricTheorems.ShadesDiffer` | crates/rollshot-action/src/metrics.rs:141-164 | Between planes of one shade each the mean difference is the distance of the shades over 255, under any mask |
| `MetricTheorems.ShadesCompared` | crates/rollshot-action/src/metrics.rs:94-139 | ... and all samples have changed, by that distance, exactly if it is over the threshold |
| `MetricTheorems.EqualUnchanged` | crates/rollshot-action/src/metrics.rs:94-194 | Planes that agree outside the mask have not changed, by any metric |
| `MetricTheorems.MaskHides` | crates/rollshot-action/src/metrics.rs:70-77 | A mask hides exactly the samples in its rectangle; no mask hides none |
| `DetectorRuns.RunsOk` | crates/rollshot-action/src/detector.rs:126-145 | Every reachable detector has at most one semantic owner, open exactly if its window exists, and one plane size throughout; and each marker's centre lies strictly after everything seen by the marker before |
| `DetectorInvariant.FrameStepped` | crates/rollshot-action/src/detector.rs:312-467 | One frame keeps the invariant, and a marker it emits is centred on an unspent frame at that frame's own time |
| `DetectorInvariant.EventStepped` | crates/rollshot-action/src/detector.rs:256-310 | One event keeps the invariant likewise |
| `DetectorInvariant.FinishMarker` | crates/rollshot-action/src/detector.rs:469-529 | The final flush is centred on an unspent frame, or on the last one if movement is in progress |
| `DetectorInvariant.FinishCloses` | crates/rollshot-action/src/detector.rs:469-529 | Finishing closes whatever session is open, with or without a marker |
| `DetectorInvariant.ComparedPlanesMatch` | crates/rollshot-action/src/detector.rs:312-467 | Whatever a frame is compared with has its size: the metrics' answer for mismatched planes is never used |
| `DetectorStory.RunTold` | crates/rollshot-action/src/detector.rs:126-529 | Every run of the detector is the story of its calls: what moved and settled in the planes alone, the frame compared with, the open session and the frames it saw |
| `DetectorStory.SettlesIff` | crates/rollshot-action/src/detector.rs:340-357 | A settle completes exactly when a frame has moved and max(1, stable_frames) still ones of its size followed |
| `DetectorStory.SettleEmitsIff` | crates/rollshot-action/src/detector.rs:435-463 | After any run without an open typing or scroll session: a marker comes if and only if the frame completes a settle, has moved from the frame compared with, and the cooldown since the last decision is over; it is a click exactly while a click's deadline has not come |
| `DetectorStory.BurstEmitsIff` | crates/rollshot-action/src/detector.rs:206-251 | The frame that ends a typing burst or scroll is a marker if and only if the session saw something meaningful and the cooldown is over; of its kind, about its latest stable meaningful frame or else its most different one |
| `DetectorStory.ClickEmitsIff` | crates/rollshot-action/src/detector.rs:383-404 | The same for a click at its deadline; without one the frame is judged as if nobody had clicked |
| `DetectorStory.NoneWithin` | crates/rollshot-action/src/detector.rs:312-340 | A first frame, a frame of another size, and a frame within a typing burst or scroll are no markers |
| `DetectorStory.EventEmitsIff` | crates/rollshot-action/src/detector.rs:256-310 | An event is a marker only if it is a click while one is open, and then the open one's |
| `DetectorStory.FlushEmitsIff` | crates/rollshot-action/src/detector.rs:469-529 | What the end of a run flushes, in both directions: the session's marker, or a movement in progress that differs from the frame compared with |
| `DetectorStory.FramesEmitIff` | crates/rollshot-action/src/detector.rs:312-467 | In runs of frames alone: a marker if and only if the frame completes a settle, moved from the last frame that changed size or settled, and the cooldown is over |
| `DetectorStory.LastRestMeans` | crates/rollshot-action/src/detector.rs:312-340 | ... that frame being the last that changed size or completed a settle, in planes |
| `DetectorViews.ShadesMove` | crates/rollshot-action/src/detector.rs:121-124 | A view going from one shade to another moves exactly if their distance exceeds the thresholds |
| `DetectorViews.ShadesMeaningful` | crates/rollshot-action/src/detector.rs:114-119 | ... and is meaningful to a session exactly if at least 4 samples changed, by at least 24 levels |
| `DetectorViews.UnchangedViewSilent` | crates/rollshot-action/src/detector.rs:1-10 | Whatever is clicked, typed or scrolled, a view that never changes makes no marker |
| `DetectorTheorems.WindowChooses` | crates/rollshot-action/src/detector.rs:79-112 | A window chooses the latest stable meaningful observation, otherwise the first with the greatest difference, and nothing if and only if nothing meaningful was seen |
| `DetectorTheorems.Debounce` | crates/rollshot-action/src/detector.rs:170-175 | k markers span at least (k - 1) cooldowns of decision time |
| `DetectorTheorems.DebounceOverRuns` | crates/rollshot-action/src/detector.rs:233-251 | ... in every run, the final flush included |
| `DetectorTheorems.EventFreePace` | crates/rollshot-action/src/detector.rs:312-467 | Without events, k markers need at least 1 + k * (1 + max(1, stable_frames)) frames |
| `DetectorTheorems.FinishedCentres` | crates/rollshot-action/src/detector.rs:253-529 | Centres and their times never go back over a whole recording; with a cooldown and calls in time order the centres strictly increase |
| `DetectorTheorems.FlushAfterSpent` | crates/rollshot-action/src/detector.rs:469-529 | With a cooldown the flush does not repeat the frame of the last marker |
| `DetectorTheorems.ClickLooksBack` | crates/rollshot-action/src/detector.rs:312-360 | With frames at least `gap` apart, a click marker looks back at most click_window / gap + 1 frames (one fewer if an event closed the window) |
| `DetectorTheorems.FlushLooksBack` | crates/rollshot-action/src/detector.rs:469-529 | ... and a flushed click at most click_window / gap |
| `DetectorObject.VisualDetector.ObserveEvent` | crates/rollshot-action/src/detector.rs:256-310 | New state and marker of `observe_event` |
| `DetectorObject.VisualDetector.ObserveFrame` | crates/rollshot-action/src/detector.rs:312-467 | New state and marker of `observe_frame` |
| `DetectorObject.VisualDetector.Finish` | crates/rollshot-action/src/detector.rs:469-529 | New state and marker of `finish` |
| `DetectorObject.VisualDetector.SemanticMarker` | crates/rollshot-action/src/detector.rs:233-251 | A session's marker: the chosen observation, if its cooldown is over |
| `DetectorObject.VisualDetector.CloseClickWindow` | crates/rollshot-action/src/detector.rs:195-204 | Closing a click leaves the rest of the detector as it was |
| `DetectorObject.VisualDetector.CloseTypingWindow` | crates/rollshot-action/src/detector.rs:206-218 | Closing a typing session moves the baseline to the present plane |
| `DetectorObject.VisualDetector.CloseScrollWindow` | crates/rollshot-action/src/detector.rs:220-231 | ... and so does closing a scroll session |
| `DetectorObject.VisualDetector.ClickConsume` | crates/rollshot-action/src/detector.rs:184-193 | A settle within the click window consumes it |
| `FrameStoreObject.FrameStore.Ingest` | crates/rollshot-action/src/frame_store.rs:104-121 | The ring and the analysis queue after a frame, oldest dropped, drops counted |
| `FrameStoreObject.FrameStore.TakeAnalysis` | crates/rollshot-action/src/frame_store.rs:123-126 | The oldest queued analysis frame |
| `FrameStoreObject.FrameStore.RetainWindow` | crates/rollshot-action/src/frame_store.rs:136-153 | The ring slice around a frame is retained and its ids returned; nothing if the frame has left the ring |
| `FrameStoreObject.FrameStore.Retained` | crates/rollshot-action/src/frame_store.rs:155-157 | The retained frame of an id, if there is one |
| `FrameStoreObject.FrameStore.Nearby` | crates/rollshot-action/src/frame_store.rs:175-190 | The strip of at most nearby_max ids around the keyframe |
| `FrameStoreFacts.StoreRuns` | crates/rollshot-action/src/frame_store.rs:104-190 | Over every run of the store's calls: the ring is the last frames, the queue a run of the last ones, every frame is dropped, taken or queued, and what is retained is as ingested |
| `RecorderInvariant.RetainWindowOk` | crates/rollshot-action/src/frame_store.rs:136-153 | In ids: the window clipped to the ring, or nothing exactly if the centre has left it; what is retained is what was ingested |
| `RecorderInvariant.ResolveOk` | crates/rollshot-action/src/recorder.rs:129-140 | Resolving what is due resolves a prefix of the queue: first in, first out |
| `RecorderTheorems.RecordingRefinesDetection` | crates/rollshot-action/src/recorder.rs:66-171 | The candidates of every finished recording are the surviving emissions of its detector run, in order, numbered from 1, and every retained frame is as ingested |
| `RecorderTheorems.ExactLoss` | crates/rollshot-action/src/recorder.rs:27-34 | For every ring: a marker with centre c seen at frame o survives if and only if o - c + 1 <= ring_capacity (o - c + 2 if an event queued it and another frame follows) and the ring reaches over window_after frames or the recording ends within reach |
| `RecorderTheorems.CandidateForSurvivor` | crates/rollshot-action/src/recorder.rs:142-171 | Every surviving marker has its candidate |
| `RecorderTheorems.SurvivorForCandidate` | crates/rollshot-action/src/recorder.rs:142-171 | Every candidate has its surviving marker |
| `RecorderTheorems.CandidateNumbered` | crates/rollshot-action/src/recorder.rs:142-171 | Candidate k has id k + 1 and the time its keyframe was ingested with |
| `RecorderTheorems.CandidatesInOrder` | crates/rollshot-action/src/recorder.rs:66-171 | Keyframes and times of candidates never go back, and with a cooldown and calls in time order keyframes strictly increase |
| `RecorderTheorems.NoClickLost` | crates/rollshot-action/src/recorder.rs:80-171 | With frames at least d ms apart and a ring that reaches over window_after frames and click_window_ms / d + 2, no click marker is ever lost |
| `RecorderTheorems.NearbyOfSpan` | crates/rollshot-action/src/frame_store.rs:175-190 | The strip has all of the window or max(1, nearby_max) ids of it, whichever is less, half of them before the keyframe, moved only as far as it takes to stay inside |
| `RecorderTheorems.StripsRetained` | crates/rollshot-action/src/recorder.rs:142-171 | Every candidate's strip is that strip of the window its marker was resolved in, and each of its frames is retained with exactly the pixels and time ingested |
| `RecorderObject.ActionRecorder.IngestFrame` | crates/rollshot-action/src/recorder.rs:66-78 | New recorder state after a frame: store, detector, queue, resolution |
| `RecorderObject.ActionRecorder.IngestEvent` | crates/rollshot-action/src/recorder.rs:80-85 | New recorder state after an event; its marker waits for the next frame to be resolved |
| `RecorderObject.ActionRecorder.Finish` | crates/rollshot-action/src/recorder.rs:91-109 | The finished recording: the flush, then everything pending, in order |
| `RecorderObject.ActionRecorder.QueueMarker` | crates/rollshot-action/src/recorder.rs:111-127 | When a queued marker is to be resolved |
| `RecorderObject.ActionRecorder.ResolveReady` | crates/rollshot-action/src/recorder.rs:129-140 | The drain loop: due markers are finalised, the others stay queued |
| `RecorderObject.ActionRecorder.Finalize` | crates/rollshot-action/src/recorder.rs:142-171 | A candidate with its strip, or nothing if the centre has left the ring |
| `GuideTheorems.EveryStepRetained` | crates/rollshot-action/src/guide.rs:40-146 | For every recording and every later sequence of edits, steps are numbered 1..n and each step's keyframe is in its strip, whose frames are all retained as ingested |
| `GuideTheorems.KeyframeNeverMissing` | crates/rollshot-action/src/storyboard.rs:90-113 | Hence the storyboard of a recorded guide never answers KeyframeMissing |
| `GuideTheorems.GuideAccepted` | crates/rollshot-action/src/guide.rs:19-38 | A guide made from a recording, however it was edited, passes the numbering and source checks of reviewed steps |
| `GuideTheorems.FreshStep` | crates/rollshot-action/src/guide.rs:40-60 | A fresh guide has one step per candidate with what was recorded of it, a title after its kind and no caption |
| `GuideModel.AllFoundIff` | crates/rollshot-action/src/storyboard.rs:90-113 | Otherwise it names the first step whose keyframe is missing |
| `GuideTheorems.DeleteRenumbers` | crates/rollshot-action/src/guide.rs:123-136 | A delete answers true exactly for an existing index and only moves the later steps up |
| `GuideModel.EditTouchesOneStep` | crates/rollshot-action/src/guide.rs:88-146 | A rename, caption, or keyframe edit changes those words or that keyframe of the step at its index and nothing else; a frame outside the strip is refused |
| `GuideModel.EditAnswers` | crates/rollshot-action/src/guide.rs:88-146 | An edit answers true if and only if its step exists, and for a keyframe only if the frame is in that step's strip |
| `GuideObject.FromReviewedSteps` | crates/rollshot-action/src/guide.rs:19-38 | A reviewed list is accepted if and only if it is not empty, numbered from 1, with positive distinct sources |
| `GuideModel.SourcesCounted` | crates/rollshot-action/src/guide.rs:30-36 | Sources pass the check if and only if zero is not among them and there are as many as steps |
| `GuideObject.GuideDocument.FromCandidates` | crates/rollshot-action/src/guide.rs:40-60 | The guide of a list of candidates |
| `GuideObject.GuideDocument.SetTitle` | crates/rollshot-action/src/guide.rs:66-68 | `set_title` changes the guide's title alone |
| `GuideObject.GuideDocument.Rename` | crates/rollshot-action/src/guide.rs:88-98 | New guide and answer of `rename` |
| `GuideObject.GuideDocument.SetTitleAndCaption` | crates/rollshot-action/src/guide.rs:100-109 | ... of `set_title_and_caption` |
| `GuideObject.GuideDocument.SetCaption` | crates/rollshot-action/src/guide.rs:111-121 | ... of `set_caption` |
| `GuideObject.GuideDocument.Delete` | crates/rollshot-action/src/guide.rs:123-136 | ... of `delete`, renumbering in place |
| `GuideObject.GuideDocument.ReplaceKeyframe` | crates/rollshot-action/src/guide.rs:138-146 | ... of `replace_keyframe`: only a frame of the step's strip is accepted |
| `CaptionModel.DraftsNumbered` | crates/rollshot-action/src/caption_proposal.rs:118-184 | Suggestions made from drafts are numbered 1..n, pending, with trimmed captions, about steps of the guide |
| `CaptionAnswers.DraftProposed` | crates/rollshot-action/src/caption_proposal.rs:118-184 | The drafts that become suggestions are exactly those about a step there is with a caption that is not blank, in order, each with its step's words, its title unless blank, and its trimmed caption |
| `CaptionAnswers.DraftsCounted` | crates/rollshot-action/src/caption_proposal.rs:118-184 | ... and there are no other suggestions |
| `CaptionModel.ApplyTouchesOneStep` | crates/rollshot-action/src/caption_proposal.rs:186-257 | `apply` changes the guide only if it answers Applied, and then only title and caption of the step with the suggestion's source, wherever deletes moved it |
| `CaptionAnswers.ApplyDecides` | crates/rollshot-action/src/caption_proposal.rs:186-257 | What `apply` answers and what becomes of the suggestion, in revisions, digests and words: Applied if and only if the project is clean and of the proposal's own revision and digest (or ephemeral), the suggestion pending, and its step unchanged; the guide changes only then |
| `CaptionModel.ApplyAnswer` | crates/rollshot-action/src/caption_proposal.rs:186-257 | Under a valid context a pending suggestion is applied or stale by its own step alone |
| `CaptionAnswers.ApplyUnknown` | crates/rollshot-action/src/caption_proposal.rs:186-257 | An id no suggestion has changes nothing |
| `CaptionAnswers.AppliedWords` | crates/rollshot-action/src/caption_proposal.rs:186-257 | What an applied suggestion writes, and where |
| `CaptionModel.SecondGoesStale` | crates/rollshot-action/src/caption_proposal.rs:186-257 | Of two suggestions about the same words the second goes stale unless the first changed nothing |
| `CaptionAnswers.AllRefused` | crates/rollshot-action/src/caption_proposal.rs:270-312 | On another revision or digest, or a dirty project, `apply_all` leaves the guide alone and turns exactly the pending suggestions stale |
| `CaptionAnswers.AllDecided` | crates/rollshot-action/src/caption_proposal.rs:270-312 | Otherwise it accepts a pending suggestion that is alone about its step exactly if the step is unchanged |
| `CaptionAnswers.RejectDecides` | crates/rollshot-action/src/caption_proposal.rs:259-268 | `reject` answers true exactly for a pending suggestion, and turns that one Rejected |
| `CaptionModel.OverwritesDecisionIff` | crates/rollshot-action/src/caption_proposal.rs:186-222 | `apply` overwrites a decision if and only if the durable context is invalid and the suggestion was decided otherwise than Stale |
| `CaptionModel.DecisionOverwritten` | crates/rollshot-action/src/caption_proposal.rs:186-222 | ... a concrete case: an accepted suggestion applied again on a dirty project becomes Stale |
| `CaptionModel.ApplyAllSettles` | crates/rollshot-action/src/caption_proposal.rs:270-312 | `apply_all` leaves nothing pending, changes no decision, answers once per pending suggestion, and leaves the guide untouched on an invalid durable context |
| `CaptionModel.ApplyEachKeepsOthers` | crates/rollshot-action/src/caption_proposal.rs:270-312 | `apply_all` keeps numbering, sources and every step that no suggestion is about |
| `CaptionObject.ProposalDocument.FromAgentDrafts` | crates/rollshot-action/src/caption_proposal.rs:118-184 | The loop over the drafts makes exactly those suggestions |
| `CaptionObject.ProposalDocument.Apply` | crates/rollshot-action/src/caption_proposal.rs:186-257 | New proposal, new guide and outcome of `apply` |
| `CaptionObject.ProposalDocument.Reject` | crates/rollshot-action/src/caption_proposal.rs:259-268 | ... of `reject` |
| `CaptionObject.ProposalDocument.ApplyAll` | crates/rollshot-action/src/caption_proposal.rs:270-312 | ... of `apply_all` |
| `FrameCache.InsertKeepsLongest` | crates/rollshot-action/src/step_frame_source.rs:126-167 | An insert leaves the longest most-recent run of the other pictures that fits, then the new one; an oversized one changes nothing |
| `FrameCache.TouchKeeps` | crates/rollshot-action/src/step_frame_source.rs:106-116 | A hit makes its picture the most recent, leaves the others in their order, and changes nothing else |
| `FrameCache.BytesCount` | crates/rollshot-action/src/step_frame_source.rs:126-131 | A picture counts four bytes per pixel |
| `FrameCache.CacheRuns` | crates/rollshot-action/src/step_frame_source.rs:106-167 | After any run the cache is within its limit, duplicate-free, and holds for each frame the picture last loaded for it that fitted |
| `FrameCache.OrderedByUse` | crates/rollshot-action/src/step_frame_source.rs:106-167 | After any run the queue is strictly ordered by last use |
| `FrameCache.ProjectFrameSource.Cached` | crates/rollshot-action/src/step_frame_source.rs:106-116 | The map, the queue and the byte counter still agree; the answer is the cached picture |
| `FrameCache.ProjectFrameSource.InsertLoaded` | crates/rollshot-action/src/step_frame_source.rs:126-167 | They still agree after an insert, and together are the specified cache, whenever the code's own sums fit a `usize` |
| `FrameCache.ProjectFrameSource.Evict` | crates/rollshot-action/src/step_frame_source.rs:152-163 | The eviction loop ends, because an empty queue means no bytes, and drops as little as possible |
| `Events.FirstsOfMaximalRuns` | crates/rollshot-action/src/events.rs:41-61 | However the input splits into maximal like-kind runs, the output is their first events |
| `Events.RunsExist` | crates/rollshot-action/src/events.rs:41-61 | Every input does split so |
| `Events.JoinsMeans` | crates/rollshot-action/src/events.rs:16-54 | An event continues a run only after one of its own kind, typing or scrolling, within the window |
| `Events.OthersPass` | crates/rollshot-action/src/events.rs:41-61 | Every click and key passes through, in order, and nothing else becomes one |
| `Events.DrainsDoNotMatter` | crates/rollshot-action/src/events.rs:41-67 | The concatenated output, buffer included, depends on the pushed events alone, not on where `drain` is called |
| `Events.AgainChangesNothingIff` | crates/rollshot-action/src/events.rs:41-61 | Aggregating twice is aggregating once if and only if no run starts within the window of the start of a like run before it |
| `Events.OrderedAgain` | crates/rollshot-action/src/events.rs:41-61 | On time-ordered input aggregating again changes nothing, and each event is stood for by one no later |
| `Events.UnorderedAgain` | crates/rollshot-action/src/events.rs:41-61 | Out of order it can lose an event: typing at 100, 0 and 150 ms with a window of 120 gives 100 and 150, and then 100 alone |
| `Events.EventAggregator.Push` | crates/rollshot-action/src/events.rs:41-61 | New buffer and run state of `push` |
| `Events.EventAggregator.Drain` | crates/rollshot-action/src/events.rs:65-67 | The buffer is handed out, the run state kept |
| `StoryboardModel.FittedLongest` | crates/rollshot-action/src/storyboard.rs:536-556 | Fitted text is the text if it fits, otherwise the greedy longest prefix and an ellipsis, too wide only if it is the ellipsis alone |
| `StoryboardModel.DownscaleKeepsShape` | crates/rollshot-action/src/storyboard.rs:505-517 | A downscaled image has the asked width and the proportional height rounded down, never none |
| `StoryboardFacts.ImageKept` | crates/rollshot-action/src/storyboard.rs:505-517 | An image no wider than asked, or asked to have no width, is kept as it is |
| `StoryboardModel.HeightsAgreeIff` | crates/rollshot-action/src/storyboard.rs:206-211 | The height reserved before decoding is the height drawn, unless an image wider than nothing and not one pixel high meets a content width of zero |
| `StoryboardModel.CardsInCanvas` | crates/rollshot-action/src/storyboard.rs:408-453 | Cards are inside the canvas with outer_padding all round, disjoint, card_spacing apart, and fill it |
| `StoryboardModel.ImagesInCards` | crates/rollshot-action/src/storyboard.rs:455-488 | An image ends exactly card_padding above its card's bottom and within the content width; label and caption end above it |
| `StoryboardModel.RenderersAgree` | crates/rollshot-action/src/storyboard.rs:152-332 | The cancellable two-pass layout is the one-pass layout, or the same refusal, whenever no image loses its reserved height: always with content width |
| `StoryboardModel.RenderersAgreeOnly` | crates/rollshot-action/src/storyboard.rs:152-332 | ... and only then |
| `StoryboardFacts.LayoutIff` | crates/rollshot-action/src/storyboard.rs:414-436 | There is a storyboard if and only if the canvas its paddings, cards and gaps need fits a `u32` and the pixel budget; and it is that canvas |
| `StoryboardFacts.NoLayout` | crates/rollshot-action/src/storyboard.rs:350-364 | Without steps, or if the paddings do not fit across, there is none |
| `StoryboardFacts.CardSays` | crates/rollshot-action/src/storyboard.rs:366-403 | A card's words and its height: the texts 8 pixels apart, the image 10 below them, the padding around |
| `StoryboardFacts.ContentsPlaced` | crates/rollshot-action/src/storyboard.rs:455-488 | Where label, caption and image are drawn, in those distances |
| `StoryboardFacts.StepLabelSays` | crates/rollshot-action/src/storyboard.rs:497-503 | The label spells the step's number in decimal, and its title exactly if titles are shown and it is not blank |
| `Storyboard.FitText` | crates/rollshot-action/src/storyboard.rs:536-556 | The growing loop computes the fitted text |
| `Storyboard.Widths` | crates/rollshot-action/src/storyboard.rs:160-166 | The saturating subtractions give the real widths; a padding they let through is refused later |
| `Storyboard.CanvasHeight` | crates/rollshot-action/src/storyboard.rs:414-427 | The checked loop adds up the unbounded height, or refuses exactly if it does not fit a `u32` |
| `Storyboard.PlaceContent` | crates/rollshot-action/src/storyboard.rs:455-488 | The unchecked additions while drawing never overflow and place the contents as laid out |
| `Storyboard.DrawCard` | crates/rollshot-action/src/storyboard.rs:519-526 | A card's border and background, every pixel write inside the canvas, everything else untouched |
| `Storyboard.DrawImage` | crates/rollshot-action/src/storyboard.rs:482-487 | An image's pixels over the canvas, as far as they lie on it, everything else untouched |
| `Storyboard.EveryCardShows` | crates/rollshot-action/src/storyboard.rs:519-526 | No card is drawn over by a later card or its image |
| `Storyboard.EveryImageShows` | crates/rollshot-action/src/storyboard.rs:408-488 | With content width every image shows in full in the finished storyboard, each pixel at its own place |
| `StoryboardFacts.CardOutlined` | crates/rollshot-action/src/storyboard.rs:519-526 | In the finished storyboard a card is outlined by its border and filled with its background |
| `Storyboard.RenderCards` | crates/rollshot-action/src/storyboard.rs:408-453 | The layout of measured cards, and the canvas with every card and image drawn on it; the pixels of text are left out |
| `Storyboard.RenderSteps` | crates/rollshot-action/src/storyboard.rs:350-406 | The one-pass renderer in checked and saturating `u32` arithmetic is the unbounded layout, or its refusal |
| `Storyboard.RenderCancellable` | crates/rollshot-action/src/storyboard.rs:152-332 | The two-pass renderer likewise, and exactly what stops it: Cancelled at the first look that sees the flag, Io at the first image that fails to load |
| `AuditTheorems.ValidIff` | crates/rollshot-agent/src/audit.rs:496-668 | The ordered checks of a correlation record accept exactly the records each event demands |
| `AuditTheorems.EnvelopeSound` | crates/rollshot-agent/src/audit.rs:365-440 | An envelope exists if and only if its strings fit and its record is right for its event |
| `AuditTheorems.TooLongIff` | crates/rollshot-agent/src/audit.rs:370-425 | An envelope is refused for size exactly if one of its limited texts is over 512 bytes or a candidate list over 256 long, before anything else |
| `AuditTheorems.DerivedTells` | crates/rollshot-agent/src/audit.rs:920-1209 | A derived envelope tells its snapshot, field by field: the review's own receipt and whether it was applied, the terminal of the status, the artifact, the attempt and run, the contract |
| `AuditTheorems.DeriveRefusals` | crates/rollshot-agent/src/audit.rs:920-1209 | Every refusal of a derivation, in order, from the two snapshots |
| `AuditTheorems.BeyondOwnIff` | crates/rollshot-agent/src/audit.rs:490-495 | An accepted record carries a field its event does not use if and only if one of the listed unchecked fields is set |
| `AuditTheorems.DerivedOnlyOwn` | crates/rollshot-agent/src/audit.rs:920-1045 | No record derived from snapshots carries one |
| `AuditTheorems.DeniedOnlyOwn` | crates/rollshot-agent/src/audit.rs:675-700 | ... nor does the record of a denial |
| `AuditTheorems.UnusedFieldAccepted` | crates/rollshot-agent/src/audit.rs:490-495 | The start of an attempt with the authority of another task: a named record that is accepted although it carries a field its event does not use |
| `AuditTheorems.CorrelationRefusedIff` | crates/rollshot-agent/src/audit.rs:920-1045 | A derived envelope is refused for its correlation if and only if it binds a contract that names another task, attempt or run; no other event ever is |
| `AuditTheorems.DenialCorrelates` | crates/rollshot-agent/src/audit.rs:675-700 | A denial always correlates with the authority it was denied under; only an oversized string is refused |
| `AuditTheorems.ChainSound` | crates/rollshot-agent/src/audit.rs:920-1209 | An accepted chain of snapshots is one task's, with consecutive revisions, each event no earlier than the update before it; its events spell a word of the fixed language of a task's life, and each of them tells its snapshot |
| `AuditTheorems.WordShape` | crates/rollshot-agent/src/audit.rs:1048-1209 | Every such word has its one TaskCreated first and nothing after a termination or review decision |
| `ProductTasks.WordRealised` | crates/rollshot-agent/src/audit.rs:1048-1209 | Every word of the language is spelled by some accepted chain |
| `ProductTasks.ReducersKeep` | crates/rollshot-agent/src/product_task.rs:1313-1725 | Every reducer keeps the task invariant, the task's identity, and steps the revision by one |
| `ProductTasks.ChangesIff` | crates/rollshot-agent/src/product_task.rs:1313-1725 | When each reducer changes a task, and what it then writes |
| `ProductTasks.RefusesIff` | crates/rollshot-agent/src/product_task.rs:1313-1725 | Which refusal each reducer answers, from the status, the clock, the attempt, the contract and the artifact |
| `ProductTasks.UnchangedIff` | crates/rollshot-agent/src/product_task.rs:1393-1725 | A reducer answers the task as it was only for an interruption with nothing to interrupt and for a contract bound already |
| `ProductTasks.StepHasEvidence` | crates/rollshot-agent/src/product_task.rs:1313-1725 | Every reducer step has its audit evidence: derivation refuses it only for an oversized string or a missing digest |
| `ProductTasks.IdleHasNoEvidence` | crates/rollshot-agent/src/product_task.rs:1440-1446 | A call that leaves the task as it was, such as binding the same contract again, has none |
| `ProductTasks.RunsEvidenced` | crates/rollshot-agent/src/product_task.rs:1231-1725 | Whatever reducers are called at whatever times, every change has its evidence, and it reads as a task's life |
| `ProductTasks.EvidenceInOrder` | crates/rollshot-agent/src/product_task.rs:1313-1725 | The evidence of reducer runs occurs in time order, each at the update time of the snapshot it leaves |
| `ProductTasks.NewTaskEvidenced` | crates/rollshot-agent/src/product_task.rs:1231-1390 | From a new task on: at most one bound contract, directly after the start, and no promotion of a version-2 task without it |

## Left out

- JobRegistry.SortByTime: stands for the standard library's sort, and allows any order of equal times.
- ProductTasks.StepHasEvidence: payload bytes, finish times of attempts and the parts of receipts the audit never reads are not modelled.
- FrameCache.ProjectFrameSource.InsertLoaded: sums that overflow a `usize`, where debug builds panic and release builds wrap, are excluded.
- Storyboard.RenderCards: labels and captions are measured and placed but their pixels are not modelled, because the text renderer is foreign code.
- Storyboard.FitText: the conversion of the content width to `f32` is exact here.
- Metrics.ComputeStats: rounding of `f32` sums is not modelled.
- Job snapshots, watches and observers (read-only views), the drop of the registry itself, mutex poisoning, unwinding in callbacks and the typed downcast of results.
- The position of a click, the confidence, rationale and provenance of caption drafts, and the capture region of a recording.
- The catalog and load requests of the frame source (look-ups and file paths).
- `render_reviewed_storyboard`, which scales twice, and the writing of PNG files.
- Parsing of ids, digests and canonical JSON; `audit_transition_receipt` and the `V1` renaming of statuses and terminals, which map one constructor to one.
- Image decoding and encoding, GIF, PNG and video output, FFmpeg processes, temporary files and renames: I/O and foreign code.
- `continuity.rs`, `authority.rs`, `launch_teaser.rs`, `domain.rs`, `visual_annotation_proposal.rs`, `video.rs`, `gif.rs`: mostly single-branch checks or hashing that would only add easy members.
- `provider.rs`, `model.rs`, `driver.rs`, `runtime.rs`, `tools.rs`, motion and project storage, the application's interface, input sources and scripts.
