# Verification of the VXG cloud agent's uploading, recording and coding core

This project models the parts of the agent whose correctness is hardest to see
from the code, and proves what they keep over every run. `dafny verify
dfyconfig.toml` checks all of it.

**Segmented uploader** (`Periods`, `Segments`, `Machine`, `Runs`, `Losses`,
`Doubles`, `Reports`, `Flags`, `Workload`, `Shortfalls`, `Listing`, `Adjusting`,
`Uploader`, with `Sorting`). A segmenter slides a window over [begin - pre, end +
post). Each turn of the scheduled loop drops canceled segmenters, picks the
unprocessed one with least begin, moves it past what processed segmenters have
handled, skips what the cloud already holds, and plans the upload of the
recorder's first clip. `Uploader.Uploader` is the object with its work list,
updated in place by one method per step. `Machine` is the same system as events on
a value, with a history of plans, reports, cloud periods seen, gaps, where each
segmenter entered, and over which others it jumped; every method of the object is
proved to be a run of the machine (`Trace`), so the theorems of `Runs`, `Losses`,
`Doubles` and `Reports` hold of the object, whatever the order of enqueue,
finalize, cancel, upload-finished and delivery-mode callbacks. An upload may
report more than once. The recorder's contract is the one its interface documents:
a returned clip lies in the window asked for; for completeness results it is also
honest, that is, nothing is recorded ahead of its first clip. The cloud may list
anything. `Shortfalls` holds runs from the start in which the code falls short of
what it is meant to do.

**Codecs** (`PackBits`, `Base64`, `MotionMap`, `UrlCodec`). The packing loop with
its look-back buffer is proved against an independent notion of blocks and their
meaning; the codecs are then composed as the motion map is.

**Fragmenting recorder** (`Fragments`). Frames in, fragments out, with the bound
on the drift of the reported clock.

**Protocol slices of the manager and the streamer** (`UploadSlots`,
`RecordEvents`, `FrameQueue`). Invariants over all runs, with tight bounds.

## Where the code falls short

Each of these has its exact condition, as an if-and-only-if over all inputs, and
where the condition needs a history, a run from the start that meets it.

- An open segmenter is ended by any cloud period that meets its window
  (`Segments.OpenSegmentFinalizedByAnySlice`).
- A clip of more than ten minutes is announced as skipped, yet it is planned
  (`Segments.PlannedClipsShortIffWindowShort`); what is recorded behind it in its
  window is lost (`Segments.StepMissesIff`, `Losses.TickLosesIff`,
  `Shortfalls.OverlongClipLosesData`). Neither happens while windows and steps are at
  most ten minutes (`Segments.TickKeepsShort`, `Losses.ShortWindowsPlanEverything`).
- A segmenter that is scheduled late can jump over its own beginning
  (`Losses.JumpLosesIff`, `Shortfalls.LateSegmentLosesData`).
- A change of the delivery mode passes over what the segmenter has not reached yet
  (`Losses.RedirectLosesIff`, `Shortfalls.RedirectLosesData`). These three are all:
  `Losses.LosesIff`.
- What a segmenter jumped over is lost to it when the other one is canceled
  afterwards (`Losses.KeptIff`, `Losses.CanceledIff`, `Losses.KeptUnlessBorrowed`,
  `Shortfalls.CanceledAfterJump`).
- Segmenters are compared with the step where their range extends by the
  post-record time (`Segments.IntersectsSeesOverlapIff`).
- A change of the delivery mode beyond the end of the window inverts the window,
  and the next tick goes back in time (`Segments.RedirectMovesBackIff`,
  `Runs.ForwardIff`, `Shortfalls.RedirectedGoesBack`,
  `Shortfalls.LateDeliveryGoesBack`).
- An empty clip at the start of the window keeps a segmenter where it is
  (`Segments.TickProgressIff`, `Segments.StallsForever`).
- The final synchronization status never comes once as many uploads have reported
  as were planned, or more (`Reports.FinalReportComesIff`); `Reports.MuteIff` tells
  which events lead there, and `Shortfalls.MuteAfterEmptyChunk`,
  `Shortfalls.MuteAfterCloudCheck` and `Shortfalls.MuteAfterRepeatedReport` are runs
  that do.
- Data may be planned twice, by different segmenters, exactly when a tick asks for a
  window in which something is planned (`Doubles.MayDoubleIff`). This happens to a settled
  segmenter when the other one is still under way, has left the list or is not seen to
  intersect (`Doubles.SettledRevisits`, `Shortfalls.SettledPlansTwice`), and to an
  unsettled one as well (`Shortfalls.UnsettledPlansTwice`).
- The sort may arrange two segmenters of equal begin differently the second
  time, so the one ticked need not be the one adjusted
  (`Adjusting.ChosenUnsettledIff`).
- Up to 2*max-1 uploads run at once (`UploadSlots.ConcurrencyKeptIffOne`).
- The byte reserved for the header of a packed grid is enough only up to 128 cells
  (`MotionMap.ReservedMemorySufficesIff`).
- Leaving the by-event mode can leave the cloud recording, after a configuration
  change during a direct recording and only then
  (`RecordEvents.LeavingEndsRecordingIff`, `RecordEvents.RecordingEndsWithMode`,
  `RecordEvents.RecordingLeftOn`).
- A start of a recording tells the cloud so as soon as its source has started, even if
  its sink then fails (`RecordEvents.LevelAfter`, `RecordEvents.SinkIff`).
- A video frame without a timestamp makes those of its fragment go back
  (`Fragments.UnstampedGoesBackIff`), and a first key frame without a decoding time can
  make the recording begin with a frame that depends on it
  (`Fragments.UndecodedStartIff`).
- The frame queue does not hold back a new frame that depends on a dropped one, nor
  such frames behind audio (`FrameQueue.VideoAfterPushIff`,
  `FrameQueue.FrontAfterPushIff`, `FrameQueue.UndecodableFront`,
  `FrameQueue.AudioHidesDependent`).

## Model

| member | source | states |
|---|---|---|
| Sorting.SortBy | src/agent/timeline.h:436-438 | The list the sort leaves is a permutation of the given one, ordered by the key, for any list and any integer key; nothing is assumed about the order of equal keys. |
| Periods.MakePeriod | src/agent/timeline.h:27-30 | A stored period always has its end set, so its effective end is its end. |
| Periods.IntersectsIff | src/agent/timeline.h:41-50 | Periods of at least one instant intersect if and only if they have an instant in common, an unset end never coming. |
| Periods.MadeToCover | src/agent/timeline.h:27-30 | A stored period covers the times from its begin up to its end, or every later time if the end is not set. |
| Periods.SquashPeriods | src/agent/timeline.h:430-458 | The merged list covers exactly the instants the items cover, is ordered with at least one uncovered instant between any two periods, keeps periods well formed and non-empty, and a list already of that form comes back unchanged. |
| Periods.MergeSorted | src/agent/timeline.h:440-454 | The merge loop computes the merge function of the sorted items. |
| Periods.MergeFromForm | src/agent/timeline.h:444-454 | From any state of the merge loop that is the merged form of the items read so far, the loop ends in the merged form of all items. |
| Periods.SortedPermutationUnique | src/agent/timeline.h:101-104 | Items with distinct begins have only one sorted arrangement. |
| Periods.MergedFormUnique | src/agent/timeline.h:430-458 | The merged form is canonical: two gapped lists of non-empty periods covering the same instants are equal, so the merge does not depend on how the sort arranges equal begins. |
| Segments.IntersectsSeesOverlapIff | src/agent/upload.h:49-60 | The test compares with the step where the range extends by the post-record time: it notices every overlap with an ordinary range if and only if the post-record time is at most one tick over the step. |
| Segments.IntersectsIff | src/agent/upload.h:49-60 | Two ranges intersect if and only if there is a time that both span, from begin minus pre up to end plus step, or with no end. |
| Segments.NewSegmentIsFreshIff | src/agent/manager.h:374-382 | A new segmenter starts at begin minus pre and the first window of a closed event ends no later than its limit; that window is inverted if and only if the event ends before the start, and otherwise a positive step is all the segmenter needs to be fit for the work list. |
| Segments.FirstWindow | src/agent/manager.h:374-382 | The first window starts at begin minus pre and reaches to begin plus the step, in a closed event not beyond end plus post; nothing is planned or flagged. |
| Segments.CheckFromExact | src/agent/upload.h:396-442 | For the cloud periods from any index on: what the start moves over is on the cloud, an "upload" window lies inside the old one and holds nothing of the cloud, and without "upload" the start has moved. |
| Segments.CheckFromFinalizes | src/agent/upload.h:430-440 | The check finalizes if and only if some remaining period meets the window and the cut start lies beyond the limit; the cut start is never on the cloud. |
| Segments.CheckFromInverted | src/agent/upload.h:403-440 | An inverted window is met only by a cloud period that spans it: then the start moves to the end of that period, over instants that are all on the cloud; otherwise the window stays as it is. |
| Segments.CheckIsExact | src/agent/upload.h:387-445 | Cloud skipping is exact: the start moves to the earliest instant not on the cloud, all it moved over is on the cloud, the window to upload lies inside the old one and is disjoint from the cloud, and the segmenter is finalized if and only if a period meets its window and the new start is beyond its limit. An inverted window stays as it is unless a period meets it. Listed periods may be ill formed. |
| Segments.CheckWindowEnds | src/agent/upload.h:414-428 | A window to upload ends where it ended before or at the begin of a listed period; a new window ahead is as long as the step, or ends at the begin of a listed period in it. |
| Segments.OpenSegmentFinalizedByAnySlice | src/agent/upload.h:430-433 | The finalization test does not ask whether the segmenter is open: an open segmenter is ended if and only if any period meets its window. |
| Segments.OpenSegmentFinalizedExample | src/agent/upload.h:430-433 | One tick of cloud data in the first window of an event that is still going on ends its upload. |
| Segments.StepAccounts | src/agent/upload.h:229-310 | Every recorded instant a step moves over is in the clip just planned or in the rest of a window whose over-long clip ends before it. |
| Segments.StepMissesIff | src/agent/upload.h:300-355 | Given any answer within the recorder contract, there are recorded instants it is honest about and that the step moves over without planning if and only if the first clip exceeds ten minutes and ends before the clamped window. |
| Segments.StepStaysInWindow | src/agent/upload.h:204-227 | A step plans at most one clip, inside the window and behind the new position, and counts it; it leaves a window in order; a processed segmenter has reached its limit; the step reports at once only if nothing was planned. |
| Segments.NextWindow | src/agent/upload.h:300-310 | Where a step leaves the window: at the end of a first clip of at most ten minutes, else at the end of the window asked for, as far as end plus post; the next window is as long as the step, also after an empty one. |
| Segments.PlansFirstClip | src/agent/upload.h:329-355 | A step that asks the recorder plans exactly the first clip it is given, counts it, and plans nothing beyond end plus post. |
| Segments.StepMovesBackIffInverted | src/agent/upload.h:229-310 | A step that asks the recorder moves the position back if and only if the window is inverted, and then to the end of that window. |
| Segments.RedirectMovesBackIff | src/agent/manager.h:421-440 | A segmenter given a new begin by a change of the delivery mode steps back if and only if that begin lies beyond the end of the window it had; it then goes to that end. |
| Segments.RedirectExample | src/agent/manager.h:421-440 | An event that began at 1000 and is redirected at 2000 is sent back to 1015 by its next step. |
| Segments.PlannedClipsShortIffWindowShort | src/agent/upload.h:302-355 | Clips over ten minutes are announced as skipped and yet planned: planned clips are at most ten minutes for every answer of the recorder if and only if the window is. |
| Segments.TickAccounts | src/agent/upload.h:537-539 | Every recorded instant a whole tick moves over is planned, on the cloud, or in the rest of a window cut short by an over-long clip; inverted windows included. |
| Segments.TickKeeps | src/agent/upload.h:537-539 | A tick plans at most one clip between the old and the new position, leaves a window in order, never moves back unless the window was inverted, and ends a closed segmenter only at its limit. |
| Segments.TickGoesBackIff | src/agent/upload.h:537-539 | A tick moves the position back if and only if the window is inverted, no listed period meets it, and the segmenter is short of its limit. |
| Segments.TickEndsIff | src/agent/upload.h:204-439 | A tick ends the segmenter if and only if the check finalizes it, or it is let through at the limit, or its window reaches the limit and the first clip, if any, is over-long or reaches the limit too. |
| Segments.TickFinishesIff | src/agent/upload.h:312-439 | A tick finishes a segmenter if and only if the check ends it, or it ends with nothing planned. |
| Segments.TickPlansAvoidCloud | src/agent/upload.h:401-428 | No instant of a planned clip is on the cloud as seen in that tick. |
| Segments.TickKeepsRest | src/agent/upload.h:387-439 | A tick changes neither the range, the ticket, the cancellation nor the counters of reported uploads. |
| Segments.TickProgressIff | src/agent/upload.h:204-310 | A tick on a closed segmenter ends it or makes the measure smaller (the remaining range, then whether the window is empty) if and only if the recorder does not answer with an empty clip at the start of a window the cloud leaves alone. |
| Segments.TicksReachProcessed | src/agent/upload.h:528-550 | Whatever the cloud and the recorder answer within their contracts, a closed segmenter is processed after at most as many ticks as instants are left plus two, and as many more as stalled on an empty clip. |
| Segments.StatusIsSent | src/agent/upload.h:109-154 | Without a ticket nothing is reported. With one exactly one report is sent in every state: canceled if the segmenter or its ticket is, done or failed if it has ended and all planned uploads reported, pending otherwise; a final report gives up the ticket and has progress 100. |
| Segments.UploadIsCounted | src/agent/upload.h:169-188 | A report of an upload raises one counter, finishes the segmenter if and only if it has ended and this was the last upload missing, and tells the whole percents of planned uploads that reported once it has ended, 0 before. |
| Segments.StallsForever | src/agent/upload.h:300-310 | The recorder contract allows an empty clip at the window start: any closed segmenter short of its limit can be kept there for any number of ticks, planning an empty upload each time. |
| Segments.NewSegmentIsShort | src/agent/manager.h:374-382 | With pre-record time and step of ten minutes together, the first window is at most ten minutes. |
| Segments.TickKeepsShort | src/agent/upload.h:300-310 | With window and step of at most ten minutes a tick leaves no gap, plans no over-long clip, and leaves such a window. |
| Machine.StatusFacts | src/agent/upload.h:109-154 | A status report changes only the cancellation mark and the ticket, sends at most one report, and that report is truthful: final only when everything planned has reported, done exactly when some upload succeeded, canceled exactly when the segmenter is. |
| Machine.AbsorbKeeps | src/agent/upload.h:109-154 | Any status report of any segmenter keeps the invariant, the report protocol included. |
| Machine.FinishedIsNotify | src/agent/upload.h:169-190 | Counting an upload and then reporting is one report of the counted segmenter, with the progress the source computes. |
| Machine.CancelFromKeeps | src/agent/upload.h:560-577 | Cancelling all listed segmenters of a ticket keeps the invariant. |
| Machine.RedirectKeeps | src/agent/manager.h:421-440 | Giving a segmenter a new begin keeps the invariant, whether or not that inverts its window. |
| Machine.TickIsCheckThenStep | src/agent/upload.h:535-539 | A tick is the check against the cloud followed, only if it answers "upload", by the step. |
| Machine.TickIsEnabled | src/agent/upload.h:535-539 | Checking and stepping with a recorder that keeps its contract is a tick of the machine and keeps the invariant. |
| Machine.TickPlansKeep | src/agent/upload.h:329-355 | The clip a tick plans starts where nothing of that segmenter was planned before. |
| Machine.ApplyKeepsInv | src/agent/upload.h:193-667 | Every callback, in any order, keeps the invariant: finished implies processed, positions and windows stay at or after the origin, plans lie in order behind the position and the window end, and the report protocol holds. |
| Runs.ReplayKeepsInv | src/agent/upload.h:193-667 | The invariant holds in every reachable state. |
| Runs.ReplayIsLater | src/agent/upload.h:300-310 | Over every run processed segmenters plan nothing more, cancellations and cleared tickets stay, what a segmenter is to cover never shrinks at its beginning, and the history only grows. |
| Runs.ForwardIff | src/agent/upload.h:300-310 | An event moves no position back if and only if it is neither a redirection to an earlier time nor a tick on an inverted window that no listed period meets. |
| Runs.OrderlyRunIsForward | src/agent/upload.h:300-310 | Over every run in which segmenters enter with windows in order and are redirected neither back in time nor beyond the end of their window, positions never move back and windows stay in order. |
| Runs.CancelAt | src/agent/upload.h:560-577 | Cancelling the first match leaves no match up to there, so searching again from the front is one pass over the list. |
| Runs.ReplayAccounted | src/agent/upload.h:193-445 | Over every run with an honest recorder, every recorded instant between where a segmenter entered and its position is in a clip planned by it or by one it jumped over, on the cloud, or in a recorded gap; what a redirection passes over is such a gap. |
| Runs.CoversFromEntry | src/agent/manager.h:374-440 | What a segmenter is to cover reaches back to where it entered, in every run, redirections included. |
| Runs.EndsAtLimit | src/agent/upload.h:204-227 | Any event that ends a closed segmenter without canceling it leaves its position at or beyond end plus post. |
| Runs.NoInstantLost | src/agent/upload.h:193-374 | No recorded instant disappears unnoticed: when a closed segmenter ends uncanceled, every recorded instant from where it entered to end plus post is in a clip planned by it or by one it jumped over, in a period seen on the cloud, or in a recorded gap. |
| Losses.LosesIff | src/agent/upload.h:193-667 | For every event: some recorded instant, with a history and a recorder honest about it, is moved over without being planned or on the cloud if and only if the event is a jump past an instant ahead that neither segmenter has, a redirection past an instant ahead, or a tick whose over-long clip ends before an instant of its window; the instant must be one the segmenter is to cover and that may be recorded by all that is known. |
| Losses.JumpLosesIff | src/agent/upload.h:634-648 | That for jumps: a jump over a segmenter that started later loses nothing if what lies ahead is planned for either of the two or on the cloud. |
| Losses.RedirectLosesIff | src/agent/manager.h:421-440 | That for changes of the delivery mode: what may be recorded between the position and the new begin, and is not served, is lost. |
| Losses.TickLosesIff | src/agent/upload.h:300-355 | That for ticks. |
| Losses.ServedStep | src/agent/upload.h:193-667 | An event that may not lose anything keeps everything moved over planned or on the cloud, whatever is recorded. |
| Losses.GapsGrowIff | src/agent/upload.h:625-667 | What is recorded as a gap: one period, not empty and within what is moved over, by a jump over a segmenter that started later than the position jumped from (up to that start), by a redirection to a later time, and by a tick whose over-long clip ends before its window; none by any other event. |
| Losses.NoGapNoLoss | src/agent/upload.h:625-667 | As long as there is no gap, an event that records none may not lose anything; so the guards tell in advance. |
| Losses.GapFreeRun | src/agent/upload.h:625-667 | A run without those three events has no gap and loses nothing. |
| Losses.EverythingPlanned | src/agent/upload.h:193-374 | In a run in which no event may lose anything, everything recorded in the range of a segmenter that ended, from where it entered, is planned, by it or by one it jumped over, or was on the cloud. |
| Losses.CanceledIff | src/agent/upload.h:109-133 | For every event: an uncanceled segmenter becomes canceled if and only if the event is the cancellation of its non-empty ticket while it is listed, or, with its ticket remembered as canceled, a report of its uploads, its skip, or its end by a tick with nothing planned. |
| Losses.KeptIff | src/agent/manager.cc:594-598 | For every event: an instant is in a plan of an uncanceled segmenter afterwards if and only if some such plan belongs to a segmenter the event does not cancel, or the event is a tick that plans it. |
| Losses.KeptUnlessBorrowed | src/agent/manager.cc:594-598 | However such a run goes on, uploads of canceled segmenters being dropped: while the segmenter is not canceled itself, an instant recorded in its range that was not on the cloud is in a plan of an uncanceled segmenter if and only if it is not so that one it jumped over planned it and all who planned it are canceled. |
| Losses.ShortKeeps | src/agent/upload.h:625-667 | While windows and steps are at most ten minutes they stay so, and no tick may lose anything. |
| Losses.ShortWindowsPlanEverything | src/agent/upload.h:193-374 | With windows and steps of at most ten minutes, in a run whose jumps and redirections lose nothing, everything recorded in the range of a segmenter that ended is planned or was on the cloud. |
| Runs.NoDoubleUploadOverRuns | src/agent/upload.h:229-310 | Over every run the clips a segmenter plans are increasing and disjoint, all between its origin and its position. |
| Runs.TickAvoidsOthers | src/agent/upload.h:634-640 | A clip planned by a segmenter at or after the position of another overlaps no clip of that other. |
| Doubles.MayPlanAgainIff | src/agent/upload.h:193-310 | Some answer within the recorder contract makes a tick plan a part of a given clip again if and only if the check answers "upload", the step asks the recorder, and the clip has an instant in common with the clamped window. |
| Doubles.MayDoubleIff | src/agent/upload.h:193-310 | As long as no instant is planned twice, a tick may plan one again if and only if it asks for a window in which something is planned already. |
| Doubles.RevisitsOthers | src/agent/upload.h:300-310 | What is planned in the window asked for is planned by another segmenter. |
| Doubles.SettledRevisits | src/agent/upload.h:625-667 | If the ticked segmenter is settled, that other one is still unprocessed, has left the list, or is not seen to intersect. |
| Doubles.ExclusiveRun | src/agent/upload.h:193-667 | Over every run in which no tick asks for a window with something planned in it, no instant is planned twice, by whichever segmenters. |
| Runs.StatusProtocolOverRuns | src/agent/upload.h:109-190 | Over every run and every continuation: pending reports, then either one final report and silence or cancellations only; a final report means planned equals done plus failed, "done" if and only if some upload succeeded, and nothing is planned after it. |
| Runs.FinishedImpliesProcessed | src/agent/upload.h:596-623 | In every reachable state a finished segmenter is processed, so the assertion on the two counts never fires. |
| Reports.ProcessedIsLeftAlone | src/agent/upload.h:169-190 | Nothing but a report of its uploads or the cancellation of its ticket reaches a processed segmenter or makes it report. |
| Reports.NoFinalReport | src/agent/upload.h:109-154 | A canceled segmenter, and an ended one with at least as many upload reports as planned uploads, never sends a final report, in any run. |
| Reports.ReportsBringTheEnd | src/agent/upload.h:156-190 | While fewer uploads have reported than were planned, reports of the missing ones bring the final report. |
| Reports.FinalReportComesIff | src/agent/upload.h:109-190 | For an ended, uncanceled segmenter that owes its final report: some run brings it if and only if fewer uploads have reported than were planned. |
| Reports.TickNotifiesIff | src/agent/upload.h:320-439 | A tick reports at once if and only if it ends the segmenter with nothing planned. |
| Reports.MuteIff | src/agent/upload.h:312-439 | For every event: an unprocessed, uncanceled segmenter is left owing its final report for ever if and only if the event is its tick, ends it, and everything planned by then has reported at least once, or is its skip after more reports than planned uploads. |
| Flags.ProcessedIff | src/agent/upload.h:193-662 | For every event: an unprocessed segmenter is processed afterwards if and only if the event is its cancellation while listed, its skip, or its tick at the end. |
| Flags.FinishedIff | src/agent/upload.h:169-662 | For every event: an unfinished segmenter is finished afterwards if and only if the event is its cancellation, its skip, its end by the check or with nothing planned, or the last report of its uploads after its end. |
| Flags.CancelFlags | src/agent/upload.h:552-586 | A cancellation ends, finishes and cancels the listed segmenters of the ticket, leaves all others as they are, and remembers the ticket. |
| Flags.SendsIff | src/agent/upload.h:109-662 | For every event and every segmenter: exactly one report of it is sent if it has a ticket and the event is its cancellation, a report of its uploads, its skip, or its end by a tick with nothing planned; none otherwise. |
| Flags.UploadIsReported | src/agent/upload.h:156-191 | Every report of an upload of a segmenter with a ticket is passed on as exactly one entry, pending ones included, with the counters, the status and the progress that its fields determine. |
| Flags.SkipIsReported | src/agent/upload.h:653-661 | A skip is reported once, with full progress. |
| Flags.CancelIsReported | src/agent/upload.h:562-576 | A cancellation is reported once, with full progress. |
| Flags.TickIsReported | src/agent/upload.h:312-439 | The end by a tick with nothing planned is reported once, with full progress by the check and none by the step unless it is final. |
| Workload.EventTakesWork | src/agent/upload.h:193-667 | With all waiting segmenters closed and nothing new coming in, no event adds to the ticks left in all, and every tick that does not stall takes one away. |
| Workload.TicksAreBounded | src/agent/upload.h:528-550 | Over every such run, whatever is canceled or reported on the way, there are at most as many ticks that do not stall as were left at its beginning. |
| Shortfalls.LateSegmentLosesData | src/agent/upload.h:634-648 | A run in which a segmenter scheduled late for an earlier time jumps over its own beginning: an instant recorded there is behind its position, in no plan and not on the cloud. |
| Shortfalls.OverlongClipLosesData | src/agent/upload.h:302-355 | A run in which a closed segmenter ends although an instant recorded behind an over-long clip of its window is in no plan and not on the cloud. |
| Shortfalls.RedirectLosesData | src/agent/manager.h:421-440 | A run in which an event from 100 on gets another delivery mode at 110 and ends then: its segmenter ends although an instant recorded at 105 is in no plan and not on the cloud. |
| Shortfalls.CanceledAfterJump | src/agent/manager.cc:594-598 | A run without gaps in which a segmenter ended uncanceled and an instant recorded in its range is planned only by the canceled segmenter it jumped over. |
| Shortfalls.RedirectedGoesBack | src/agent/manager.h:421-440 | A run to a redirected segmenter at 2000 whose next tick takes it back to 1015. |
| Shortfalls.LateDeliveryGoesBack | src/agent/manager.h:421-440 | The same for a segmenter that enters only when its delivery mode has changed. |
| Shortfalls.MuteAfterEmptyChunk | src/agent/upload.h:312-365 | A run to an ended segmenter that owes its final report for ever: the last chunk is empty and everything planned has reported before. |
| Shortfalls.MuteAfterCloudCheck | src/agent/upload.h:430-439 | The same with the last chunk found on the cloud. |
| Shortfalls.MuteAfterRepeatedReport | src/agent/upload.h:169-190 | The same with an upload that reported twice, so that more uploads have reported than were planned. |
| Shortfalls.UnsettledPlansTwice | src/agent/upload.h:528-539 | A run after which the second selection may choose a segmenter that was not adjusted; its tick plans an instant another segmenter has planned. |
| Shortfalls.SettledPlansTwice | src/agent/upload.h:528-539 | A run to a settled segmenter, the only one with its begin, whose tick plans an instant that a listed segmenter still under way has planned. |
| Listing.Live | src/agent/upload.h:490-501 | The canceled segmenters, and only those, leave the list. |
| Listing.Leading | src/agent/upload.h:506-510 | The processed segmenters counted at the front end where the first unprocessed one stands. |
| Listing.DropFrees | src/agent/upload.h:447-483 | A purge frees as many removable segmenters as asked for, or all there are, and nothing that is not removable. |
| Listing.DropStaysAhead | src/agent/upload.h:447-483 | With enough removable ones ahead of a position, a purge leaves the list from there on as it is. |
| Listing.CurrentIsLeast | src/agent/upload.h:485-526 | The chosen segmenter is the unprocessed one with the least begin; there is none if and only if all are processed. |
| Listing.PurgeSparesCurrent | src/agent/upload.h:506-522 | The purge removes exactly half, rounded down, of the finished ones in the leading processed prefix, none unfinished and none from the current one on. |
| Adjusting.AdjustToReaches | src/agent/upload.h:635-662 | Moving past one segmenter is a jump, or a jump and a skip, of the machine; afterwards the segmenter has ended or starts no earlier than that position. |
| Adjusting.AdjustFromReaches | src/agent/upload.h:634-664 | After a pass the segmenter has ended or starts no earlier than the position of any listed processed segmenter it intersects. |
| Adjusting.EndingShrinks | src/agent/upload.h:531-532 | A pass that ends its segmenter leaves strictly fewer unprocessed ones, so the adjust loop terminates. |
| Adjusting.PassReaches | src/agent/upload.h:625-667 | A selection and a pass lead by events of the machine either to fewer unprocessed segmenters or to a settled current one. |
| Adjusting.SettledTickAvoidsProcessed | src/agent/upload.h:634-640 | A tick on a settled segmenter plans nothing that overlaps a clip of a listed processed segmenter it intersects. |
| Adjusting.ChosenUnsettledIff | src/agent/upload.h:528-537 | After a settled adjustment, the second selection can choose an unsettled segmenter if and only if that is another waiting one of the same begin that starts before the position of a kept processed segmenter it intersects. |
| Uploader.Segmenter.constructor | src/agent/manager.h:311-395 | A new segmenter is the model one: first window from begin minus pre to the step or, if nearer, the end plus post. |
| Uploader.Segmenter.Redirect | src/agent/manager.h:428-430 | Begin and window start become now; the window end stays. |
| Uploader.Segmenter.Intersects | src/agent/upload.h:49-60 | The answer is the range intersection of the two segmenters. |
| Uploader.Uploader.constructor | src/agent/upload.h:90-104 | A new uploader is in the start state of the machine and valid. |
| Uploader.Uploader.RemoveTicket | src/agent/upload.h:121-133 | The ticket is removed wherever it stands, the others keep their order, and the answer says whether it was there. |
| Uploader.Uploader.Conclude | src/agent/upload.h:135-150 | The report due and the ticket afterwards are those of the model. |
| Uploader.Uploader.SendStatus | src/agent/upload.h:109-154 | The whole state becomes that of a status report of the machine; no other segmenter changes. |
| Uploader.Uploader.CutWindow | src/agent/upload.h:396-442 | The loop over the cloud periods leaves the window, the answer and the finalization that the exact check gives. |
| Uploader.Uploader.CheckClipSegment | src/agent/upload.h:387-445 | The first half of a tick of the machine, and whether to upload. |
| Uploader.Uploader.MoveWindow | src/agent/upload.h:193-327 | The segmenter, the clip to plan, the gap left and whether to report are those of the step function on the recorder's answer for the clamped window. |
| Uploader.Uploader.TakeClip | src/agent/upload.h:300-365 | The same for a non-empty window and the recorder's first clip. |
| Uploader.Uploader.SegmentStep | src/agent/upload.h:193-374 | The second half of a tick of the machine. |
| Uploader.Uploader.CountUpload | src/agent/upload.h:169-188 | The counters, the finished mark and the progress after an upload reports. |
| Uploader.Uploader.OnFinished | src/agent/upload.h:156-191 | The state becomes that of the upload-finished event, which may come late or repeatedly, and stays valid. |
| Uploader.Uploader.SegmenterFinalize | src/agent/upload.h:376-385 | The state becomes that of the finalize event and stays valid. |
| Uploader.Uploader.FindByTicket | src/agent/upload.h:555-561 | The first listed segmenter of the ticket that is not canceled, or none. |
| Uploader.Uploader.CancelOne | src/agent/upload.h:562-576 | One segmenter is canceled, ended and reported. |
| Uploader.Uploader.CancelListed | src/agent/upload.h:560-577 | Searching from the front until nothing is found cancels what one pass over the list cancels. |
| Uploader.Uploader.CancelByTicket | src/agent/upload.h:552-586 | The state becomes that of the cancel event, the ticket remembered, and stays valid; an empty ticket changes nothing. |
| Uploader.Uploader.AddSegmenter | src/agent/upload.h:588-592 | The list grows by the segmenter at its end; to the machine a new segmenter enters, and a known one is listed once more. |
| Uploader.Uploader.Enqueue | src/agent/upload.h:588-594 | For a new or a known segmenter, the state is reached by its event and a re-ordering, stays valid, and the list holds the segmenter once more than before. |
| Uploader.Uploader.RedirectKnown | src/agent/manager.h:421-440 | The state becomes that of the redirect event and stays valid. |
| Uploader.Uploader.SortSegmenters | src/agent/upload.h:79-82 | The sorted list is a permutation ordered by begin. |
| Uploader.Uploader.RemoveCanceled | src/agent/upload.h:490-501 | The loop leaves the live segmenters. |
| Uploader.Uploader.CountLeading | src/agent/upload.h:506-510 | The loop finds the processed prefix and counts the finished ones in it. |
| Uploader.Uploader.Purge | src/agent/upload.h:447-483 | The loop removes the first removable segmenters up to the number asked for, at most the whole list. |
| Uploader.Uploader.PickCurrent | src/agent/upload.h:485-526 | The kept list is the ordered live one less exactly half of its leading finished segmenters, and the choice is the unprocessed one with least begin. |
| Uploader.Uploader.GetCurrent | src/agent/upload.h:485-526 | Only the list changes: to the ordered live one less exactly half of the leading finished; the result is null if and only if all listed ones are processed or canceled, and else the waiting one with least begin; no unfinished one leaves unless canceled. |
| Uploader.Uploader.JumpOver | src/agent/upload.h:638-639 | The segmenter takes over the position of the other; nothing else changes. |
| Uploader.Uploader.SkipRest | src/agent/upload.h:657-658 | The segmenter ends and reports. |
| Uploader.Uploader.EndIfOutside | src/agent/upload.h:649-662 | The segmenter is ended and reported if and only if it is closed and at its limit. |
| Uploader.Uploader.AdjustTo | src/agent/upload.h:635-663 | The state and the answer are those of moving past one segmenter. |
| Uploader.Uploader.AdjustNext | src/agent/upload.h:635-662 | One round of the loop brings the pass one listed segmenter further, or ends it. |
| Uploader.Uploader.AdjustPass | src/agent/upload.h:634-666 | The loop is the pass over the whole list, left as soon as the segmenter ends. |
| Uploader.Uploader.AdjustCurrentToFinished | src/agent/upload.h:625-667 | The state is reached by events of the machine; a true answer means strictly fewer unprocessed segmenters, a false one that all are done or the current one is settled. |
| Uploader.Uploader.AdjustAll | src/agent/upload.h:531-532 | The adjust loop terminates, by events of the machine, with all done or the current segmenter settled. |
| Uploader.Uploader.CloudPeriods | src/agent/timeline.h:461-463 | The merged listing of the cloud covers exactly what the listing covers and is fit for the exact check, whatever the listing. |
| Uploader.Uploader.TickOn | src/agent/upload.h:387-391 | One enabled tick of the machine on that segmenter, with periods that cover exactly what the cloud listed for its window. |
| Uploader.Uploader.CheckThenStep | src/agent/upload.h:538-539 | Check and step together are one enabled tick of the machine. |
| Uploader.Uploader.Choose | src/agent/upload.h:531-537 | By events of the machine, the waiting segmenter with least begin is chosen; it is settled if no other waiting one has its begin. |
| Uploader.Uploader.ChooseAgain | src/agent/upload.h:535-537 | The second selection after the adjustment: all are done, or the chosen segmenter has least begin and is settled if its begin is its own. |
| Uploader.Uploader.TickChosen | src/agent/upload.h:537-539 | The chosen segmenter is ticked once, by an enabled event of the machine. |
| Uploader.Uploader.AsyncLoop | src/agent/upload.h:528-550 | One turn of the loop is a run of relistings, jumps and skips of the machine followed by one tick on the waiting segmenter with least begin, settled if its begin is its own; no tick happens only if all are done. So all results over runs hold of the object. |
| Uploader.Uploader.RunUntilDone | src/agent/upload.h:528-550 | If all waiting segmenters are closed, nothing new comes in and no clip of the recorder is empty, then repeated turns of the loop come to a state in which all is done, after at most one turn more than there are ticks left in all. |
| PackBits.UnpackBlock | src/utils/packbits.c:108-143 | Unpacking one written block gives what it stands for and goes on behind it. |
| PackBits.EmitFormat | src/utils/packbits.c:28-105 | The format of a block: a header 0 to 127 and that many plus one bytes, or a header -1 to -127 and the byte that comes one minus it times. |
| PackBits.UnpackHeader | src/utils/packbits.c:116-140 | What unpacking makes of any header, with the skipped one, too many bytes and a short source. |
| PackBits.UnpackEmitted | src/utils/packbits.c:108-143 | Unpacking any series of well-formed blocks, whatever follows, gives what they stand for. |
| PackBits.UnpackIsInverse | src/utils/packbits.c:108-143 | With the count the blocks stand for, unpacking succeeds and consumes exactly them. |
| PackBits.StepKeeps | src/utils/packbits.c:34-89 | Each byte keeps the encoder invariant: blocks written plus buffer are the input read, the buffer ends in its longest run, and the size is within budget. |
| PackBits.StepKeepsBuffer | src/utils/packbits.c:28-89 | The look-back buffer and run start stay within their bounds. |
| PackBits.PackFromBlocks | src/utils/packbits.c:34-105 | From any encoder state that keeps the invariant, the final output represents all input. |
| PackBits.PackIsCompressed | src/utils/packbits.c:17-106 | Every packed string is a series of blocks that stand for the input, with no header -128, no three equal bytes inside a literal and no two at its front, no run cut short of 128, and at most n plus ceil(n/128) bytes. |
| PackBits.RoundTrip | src/utils/packbits.c:17-143 | For every non-empty string, unpacking its packed form with its length returns it and consumes exactly the packed form, whatever follows. |
| PackBits.PackFromLiterals | src/utils/packbits.c:34-105 | Without equal neighbours exactly one header per 128 bytes is added. |
| PackBits.BoundIsReached | src/utils/packbits.c:17-106 | The size bound is attained by every string without equal neighbours. |
| PackBits.PackBits | src/utils/packbits.c:17-106 | The loop with its 256-byte buffer computes the packed form; the returned size is the number of bytes written. |
| PackBits.PackByte | src/utils/packbits.c:36-88 | One round of the loop is one step of the encoder, inside the buffer. |
| PackBits.UnpackAt | src/utils/packbits.c:116-140 | Unpacking from a position, one header at a time, in all five cases. |
| PackBits.UnpackNext | src/utils/packbits.c:116-140 | One round of the loop advances the unpacking function and touches nothing beyond what it writes. |
| PackBits.UnpackCount | src/utils/packbits.c:115-142 | The loop returns the consumed size, a null result when a block exceeds the count, or a read past the source, as unpacking does, and writes exactly the unpacked bytes. |
| PackBits.UnpackBits | src/utils/packbits.c:108-143 | A negative count is answered with null and leaves the destination alone; otherwise the outcome and the bytes written are those of unpacking, and nothing behind them changes. |
| Base64.AlphabetInverse | src/utils/base64.cc:42-65 | Looking up a character found at a position gives the position, in both alphabets. |
| Base64.PosOfCharIff | src/utils/base64.cc:42-65 | Looking up a character succeeds if and only if it stands in one of the two alphabets of RFC 4648, and gives its place there. |
| Base64.DigitsKeepValue | src/utils/base64.cc:128-135 | The four digits spell in base 64 the number the three bytes spell in base 256. |
| Base64.ShortDigitsKeepValue | src/utils/base64.cc:137-147 | A padded block has the digits of the block filled with zero bytes. |
| Base64.EncodedLength | src/utils/base64.cc:105-154 | The encoded length is (n+2)/3*4. |
| Base64.EncodedChars | src/utils/base64.cc:105-154 | Every character of the encoding: the padding at the end is = in the plain form and . in the URL form, and each other one spells the base-64 digit of the bytes at its place by the table of RFC 4648. |
| Base64.DigitsRoundTrip | src/utils/base64.cc:128-208 | Joining the digits of one to three bytes gives the bytes. |
| Base64.BlockRoundTrip | src/utils/base64.cc:128-210 | Decoding one encoded block gives its bytes, with either padding. |
| Base64.RoundTrip | src/utils/base64.cc:105-216 | Decoding undoes encoding for every byte string and both alphabets. |
| Base64.DecodesIff | src/utils/base64.cc:195-212 | Decoding throws if and only if some group of four is not right: two digits, then padding of either form or a digit, and then so for the fourth. |
| Base64.BytesKeepValue | src/utils/base64.cc:198-208 | The decoded bytes spell in base 256 the number the digits spell in base 64, left-over bits dropped. |
| Base64.StripUndoesBreaking | src/utils/base64.cc:67-83 | Removing line breaks gives the string back, for every line length. |
| Base64.BreaksAtLineEnds | src/utils/base64.cc:67-83 | Breaks stand exactly at the end of each full line, and none at the end of the string. |
| Base64.EncodedHasNoBreaks | src/utils/base64.cc:105-154 | The encoded form holds no line break. |
| Base64.BrokenRoundTrip | src/utils/base64.cc:85-99 | The line-broken form decodes to the bytes once breaks are removed, for every line length. |
| Base64.EncodeGroup | src/utils/base64.cc:128-147 | One round of the encoding loop gives the block of the next one to three bytes. |
| Base64.EncodeBytes | src/utils/base64.cc:105-154 | The loop computes the encoding. |
| Base64.DecodeGroup | src/utils/base64.cc:198-210 | One round of the decoding loop gives the bytes of the next group, or throws. |
| Base64.DecodeString | src/utils/base64.cc:156-216 | The loop computes the decoding, a throw in any group included. |
| Base64.InsertLinebreaks | src/utils/base64.cc:67-83 | The loop terminates although the string grows, and breaks the string into lines of exactly the given length. |
| Base64.RemoveLinebreaks | src/utils/base64.cc:169-174 | The loop removes every line break and nothing else. |
| Base64.EncodeWithLineBreaks | src/utils/base64.cc:85-99 | For every line length, the broken encoding, which decodes to the bytes. |
| Base64.EncodePem | src/utils/base64.cc:90-93 | Line breaks stand exactly at the end of every 64 characters, none at the end of the string; without them it is the plain encoding, and it decodes to the bytes. |
| Base64.EncodeMime | src/utils/base64.cc:95-98 | The same with 76 characters. |
| Base64.DecodeWithLineBreaks | src/utils/base64.cc:156-178 | Decoding with removal is decoding the string without breaks. |
| MotionMap.Pack | src/utils/utils.cc:250-266 | The text is the Base64 of the packed grid when that fits the reserved memory, which it does up to 128 cells. |
| MotionMap.UnpackMap | src/utils/utils.cc:273-288 | The unpacked cells, zeros where unpacking stopped, and one trailing zero; a text that is no Base64 throws. |
| MotionMap.UnpackGrid | src/utils/utils.cc:273-288 | The destination of the unpacking holds the cells, zeros where it stopped. |
| MotionMap.MapRoundTrip | src/utils/utils.cc:250-288 | Through both codecs, the map text of any non-empty grid stands for the grid. |
| MotionMap.ReservedMemorySufficesIff | src/utils/utils.cc:255-258 | One spare byte suffices for every grid of a size if and only if it has at most 128 cells. |
| MotionMap.PackThenUnpack | src/utils/utils.cc:250-288 | Unpacking a packed grid that fits gives the grid and one zero. |
| MotionMap.SameBits | src/utils/utils.cc:250-288 | The signed and the unsigned reading of a byte are equal modulo 256. |
| Fragments.RotateKeepsClock | src/streamer/multifrag_sink.cc:125-133 | Finishing a fragment adds less than one millisecond of lag, because boundaries telescope through the last timestamp. |
| Fragments.TruncDivTruncates | src/streamer/multifrag_sink.cc:115-123 | The rescaled value is cut toward zero: what is left over is smaller than the divisor and has the sign of the dividend. |
| Fragments.TruncatesOnce | src/streamer/multifrag_sink.cc:115-123 | There is only one such value. |
| Fragments.ProcessStarts | src/streamer/multifrag_sink.cc:141-181 | Nothing is recorded before the first key frame, which fixes the clock and the origin. |
| Fragments.ProcessKeeps | src/streamer/multifrag_sink.cc:135-255 | Every further frame keeps the clock and fragment invariants. |
| Fragments.RunStarts | src/streamer/multifrag_sink.cc:135-255 | From a fresh sink, every run of valid frames is either untouched or keeps the invariants from its first key frame on. |
| Fragments.FinalizesIff | src/streamer/multifrag_sink.cc:98-201 | In a running recording, a video frame finalizes the current fragment if and only if it is a key frame in order and the frames of the fragment come up to the configured bytes, or their media time to the configured seconds; it then begins the next one. |
| Fragments.FragmentsAreCutInTime | src/streamer/multifrag_sink.cc:98-201 | Over every run, every completed fragment is full, and no fragment holds a key frame behind frames that fill it. |
| Fragments.FramesAreRestored | src/streamer/multifrag_sink.cc:135-234 | Over every run, the fragments together hold exactly the video frames from a key frame on, those out of order and what follows them up to the next key frame left out: rebasing each fragment on the last frame ahead of it gives back all presentation and decoding times, key marks and lengths, in order. |
| Fragments.StartsAt | src/streamer/multifrag_sink.cc:159-181 | The recording starts at the time the source gives with the first key frame if that is less than thirty seconds old, else at the present time. |
| Fragments.UnstampedGoesBackIff | src/streamer/multifrag_sink.cc:203-234 | A frame without a timestamp is not handed on, but the next one counts from zero: the timestamps in the fragment go back if and only if they had come further than zero. |
| Fragments.UndecodedStartIff | src/streamer/multifrag_sink.cc:203-234 | A first key frame without a decoding time is dropped and the next video frame begins the recording: it begins with a key frame if and only if that one is. |
| Fragments.Undecoded | src/streamer/multifrag_sink.cc:219-227 | A later frame without a decoding time is handed on without one. |
| Fragments.ClockDrift | src/streamer/multifrag_sink.cc:115-133 | After k finished fragments the next start lags the exact media time by at least 0 and less than k milliseconds, and by 0 when k is 0; it is a whole number of milliseconds after the first. |
| Fragments.FragmentsAreSound | src/streamer/multifrag_sink.cc:98-234 | Every fragment starts with a key frame and has non-negative, non-decreasing timestamps; reported fragments are contiguous, one per completed fragment, and in duration mode none is shorter than configured. |
| Fragments.CloseReportsRest | src/streamer/multifrag_sink.cc:27-46 | Closing reports the last fragment right after the others if it lasts at all, and resets the sink. |
| Fragments.Sink.constructor | src/streamer/multifrag_sink.cc:10-25 | A new sink is in the fresh state. |
| Fragments.Sink.IsFull | src/streamer/multifrag_sink.cc:98-113 | Whether the fragment has reached the configured size or duration. |
| Fragments.Sink.RotateStats | src/streamer/multifrag_sink.cc:125-133 | The state after a fragment is reported. |
| Fragments.Sink.UpdateStats | src/streamer/multifrag_sink.cc:115-123 | The fragment holds one frame more, and its duration is the one value that is the media time since its first timestamp in milliseconds, cut toward zero, whatever the signs. |
| Fragments.Sink.ProcessFrame | src/streamer/multifrag_sink.cc:135-255 | The state after a frame is that of the process function; the answer tells known kinds. |
| Fragments.Sink.RecordFrame | src/streamer/multifrag_sink.cc:159-201 | The same for a frame that passed the key and order tests. |
| Fragments.Sink.HandOn | src/streamer/multifrag_sink.cc:203-234 | The frame is handed on rebased, or dropped without a valid timestamp. |
| Fragments.Sink.Finish | src/streamer/multifrag_sink.cc:27-46 | The state after closing. |
| UploadSlots.TickKeepsBound | src/agent/manager.cc:587-606 | A scheduler tick keeps clips held within the limit and held plus in flight below twice the limit. |
| UploadSlots.TickTakesInOrder | src/agent/manager.cc:587-606 | With room, a tick takes requests from the front in order, passes over those canceled or not exportable, and exports and holds the first other one if there is any; without room it takes none. |
| UploadSlots.ReplyIff | src/agent/manager.cc:1138-1153 | A reply puts a clip in flight if and only if it is held and not canceled; it is held no more. |
| UploadSlots.RemainingConcat | src/agent/manager.cc:614-633 | Dropping requests keeps the others in order. |
| UploadSlots.SlotsAfter | src/agent/manager.cc:570-1196 | For every event: how many clips are in flight afterwards, which are no longer held, and that only a tick holds a new one, neither late nor canceled. |
| UploadSlots.QueueAfter | src/agent/manager.cc:570-688 | For every event: what is queued afterwards. |
| UploadSlots.ApplyKeepsBound | src/agent/manager.cc:1138-1196 | So does every schedule, removal, reply, timeout and response. |
| UploadSlots.SlotBound | src/agent/manager.cc:570-611 | In every run, clips held plus uploads in flight are at most 2*max-1. |
| UploadSlots.ExportedInOrder | src/agent/manager.cc:570-688 | In every run requests are exported in the order they were scheduled, each at most as often as scheduled, and those still queued come behind them. |
| UploadSlots.BoundIsTight | src/agent/manager.cc:587-606 | For every limit both 2*max-1 held and in flight, and 2*max-1 in flight at once, are reached. |
| UploadSlots.ConcurrencyKeptIffOne | src/agent/manager.cc:587-592 | Uploads in flight stay within the configured limit in every run if and only if the limit is one. |
| UploadSlots.Manager.constructor | src/agent/manager.cc:570-585 | Nothing held, nothing in flight. |
| UploadSlots.Manager.ScheduleDirectUpload | src/agent/manager.cc:635-666 | The request joins the end of the queue. |
| UploadSlots.Manager.RequestDirectUpload | src/agent/manager.cc:472-557 | The clip is held if and only if its export succeeded. |
| UploadSlots.Manager.DropQueued | src/agent/manager.cc:614-633 | The requests to drop, and no others, leave the queue, in order. |
| UploadSlots.Manager.CancelDirectUploads | src/agent/manager.cc:668-688 | The canceled requests leave the queue. |
| UploadSlots.Manager.DirectUploadSync | src/agent/manager.cc:570-611 | Late requests leave, then the loop is the tick of the machine; unregistered, only the late ones leave. |
| UploadSlots.Manager.OnDirectUploadUrl | src/agent/manager.cc:1138-1153 | The reply of the machine: the clip leaves, in flight unless canceled; a late reply finds none. |
| UploadSlots.Manager.OnAckTimeout | src/agent/manager.cc:513-523 | The clip is dropped. |
| UploadSlots.Manager.OnUploadResponse | src/agent/manager.cc:1185-1196 | One upload less is in flight. |
| RecordEvents.NotifyKeeps | src/agent/manager.cc:858-882 | Entering or leaving a level keeps alternation and the meaning of the depth. |
| RecordEvents.NotifySendsIff | src/agent/manager.cc:858-882 | An event is sent if and only if the outermost level is entered or left. |
| RecordEvents.StopByEventKeeps | src/agent/manager.cc:1993-2046 | So does leaving the by-event mode with all its nested stops. |
| RecordEvents.ApplyKeeps | src/agent/manager.cc:1702-1935 | So does every start, every stop and every change of the events' configuration. |
| RecordEvents.EventsAlternate | src/agent/manager.cc:1959-2050 | Over any sequence of starts, stops and configuration changes, record events strictly alternate beginning with "on", the depth is never negative and is positive if and only if the last event was "on", and the sink count stays 0 or 1. |
| RecordEvents.SinkIff | src/agent/manager.cc:1788-2050 | For every call: a sink is active afterwards if and only if the call starts it, or one was active and the call does not stop it; leaving the by-event mode stops it unless a direct recording takes the only nested stop. |
| RecordEvents.SinkOverRuns | src/agent/manager.cc:1788-2050 | Over any sequence of calls a sink is active if and only if some start that turned it on has had no stop since that turned it off, nested ones included. |
| RecordEvents.ModesIff | src/agent/manager.cc:1788-2046 | For every call, when the two by-event modes, the direct recording and its hidden event are on afterwards. |
| RecordEvents.LevelAfter | src/agent/manager.cc:1818-1842 | For every call but the leaving of the by-event mode, how the level changes; a start whose source starts enters one even if its sink then fails. |
| RecordEvents.RecordStreamAfter | src/agent/manager.cc:1788-1935 | For every call, which stream is being recorded: a successful start other than a live one sets it. |
| RecordEvents.AnswerIff | src/agent/manager.cc:1788-2050 | A start succeeds if and only if what its reason needs is there, an active sink standing in for a new one; a stop if and only if its reason can be stopped. |
| RecordEvents.LeavingEndsRecordingIff | src/agent/manager.cc:1993-2034 | Leaving the by-event mode brings the depth to zero if and only if it was zero, or the event-sending mode was on and it is not so that a direct recording whose own event was stopped takes the only stop; otherwise it leaves it at one. |
| RecordEvents.RecordingEndsWithMode | src/agent/manager.cc:1898-2046 | Over any sequence of starts and stops without a configuration change, the cloud is told to record only while the event-sending mode is on, and a direct recording goes on exactly as long as its hidden event. |
| RecordEvents.RecordingLeftOn | src/agent/manager.cc:1702-1717 | A run of five calls, with a configuration change between a direct recording and the end of the by-event mode, after which that mode is over and the cloud is still told to record. |
| RecordEvents.Manager.constructor | src/agent/manager.cc:858-882 | The initial state. |
| RecordEvents.Manager.NotifyRecordEvent | src/agent/manager.cc:858-882 | The state after a notification; the answer tells whether an event was sent. |
| RecordEvents.Manager.OnStreamStart | src/agent/manager.cc:1788-1938 | The state and the answer after a start for each reason, the nested start and the hidden event of a direct recording included. |
| RecordEvents.Manager.StartSink | src/agent/manager.cc:1798-1803 | A sink is started only if none is active; the answer tells whether one is then active. |
| RecordEvents.Manager.StartRecord | src/agent/manager.cc:1818-1842 | The state and the answer after a record start. |
| RecordEvents.Manager.StopSink | src/agent/manager.cc:1986-1991 | A sink is stopped only if one is active. |
| RecordEvents.Manager.OnStreamStop | src/agent/manager.cc:1959-2050 | The state and the answer after a stop for each reason, the nested stops included. |
| RecordEvents.Manager.StopPlain | src/agent/manager.cc:1979-1992 | The state after a plain record stop. |
| RecordEvents.Manager.LeaveByEvent | src/agent/manager.cc:1998-2045 | The state after leaving the by-event mode. |
| RecordEvents.Manager.StopOngoing | src/agent/manager.cc:2006-2025 | One nested stop for every ongoing event, the hidden one included if it is still active at its turn. |
| RecordEvents.Manager.StopRepeatedly | src/agent/manager.cc:2010-2023 | A number of nested stops in a row. |
| RecordEvents.Manager.StopAllEventStreams | src/agent/manager.cc:1702-1717 | The hidden event of a direct recording is no longer active; the recording goes on. |
| FrameQueue.DropOldKeeps | src/streamer/base_streamer.h:160-167 | Dropping old frames counts each, keeps the order of the rest, and makes room in a full queue that may drop. |
| FrameQueue.DropsIff | src/streamer/base_streamer.h:453-480 | A frame may be dropped if and only if the queue allows it and is full, or waits for a key frame and this is dependent video; each kind has its counter, and the wait begins with a dropped video frame and ends with a key frame that finds room. |
| FrameQueue.PushBackStoresIff | src/streamer/base_streamer.h:152-158 | Where new frames are dropped, a push stores its frame at the end if and only if that frame need not be dropped; the old ones stay. |
| FrameQueue.PushWithRoom | src/streamer/base_streamer.h:151-168 | With room and no wait for a key frame, or where nothing may be dropped, a push drops nothing. |
| FrameQueue.PushOverAudio | src/streamer/base_streamer.h:160-167 | A full queue with audio at the front and no wait drops just that frame. |
| FrameQueue.DropOldCounts | src/streamer/base_streamer.h:453-480 | The two counters count exactly the video and the other frames dropped from the front. |
| FrameQueue.WaitingAndFlushing | src/streamer/base_streamer.h:68-252 | What waiting, waking, flushing and the end of a flush change. |
| FrameQueue.FrontAfterDrop | src/streamer/base_streamer.h:453-480 | After dropping, no video frame that depends on a dropped one is at the front. |
| FrameQueue.DropKeepsOneIff | src/streamer/base_streamer.h:160-167 | A push that loses video leaves an old frame if and only if one that a decoder can begin with is queued, other than the first of a full queue. |
| FrameQueue.FrontAfterPushIff | src/streamer/base_streamer.h:160-167 | After a push that lost video, the front is a frame a decoder can begin with if and only if the new frame is one or such a frame was queued, other than the first of a full queue: the new frame itself is not held back. |
| FrameQueue.VideoAfterPushIff | src/streamer/base_streamer.h:160-167 | After a push that lost video, the first video frame in the queue is a key frame if and only if, behind the frame a full queue must drop, no dependent frame without a key frame ahead of it is the new one or comes behind audio. |
| FrameQueue.UndecodableFront | src/streamer/base_streamer.h:160-167 | After 91 pushes of video frames without a key frame the one frame left is one a decoder cannot begin with. |
| FrameQueue.AudioHidesDependent | src/streamer/base_streamer.h:160-167 | A run of 91 pushes, the second of them audio, and one pop after which a dependent video frame is at the front. |
| FrameQueue.PushKeeps | src/streamer/base_streamer.h:137-178 | A push keeps the size, order and conservation invariants, in both drop directions. |
| FrameQueue.ApplyKeeps | src/streamer/base_streamer.h:68-252 | So does every push, wait, wake-up, pop, flush and flush stop. |
| FrameQueue.QueueIsSound | src/streamer/base_streamer.h:68-252 | Over every run, pushes that wait through a flush included, the queue holds at most 90 frames, popped and then queued frames are pushed frames in order, and pushed equals popped plus queued plus counted drops plus refused plus flushed. |
| FrameQueue.MediaFrameQueue.constructor | src/streamer/base_streamer.h:450-451 | An empty queue. |
| FrameQueue.MediaFrameQueue.MayDrop | src/streamer/base_streamer.h:453-480 | The answer, the wait for a key frame and the drop counters. |
| FrameQueue.MediaFrameQueue.DropFromFront | src/streamer/base_streamer.h:160-166 | The loop drops from the front as long as that is allowed. |
| FrameQueue.MediaFrameQueue.StoreFrame | src/streamer/base_streamer.h:166-167 | The frame joins the end of the queue. |
| FrameQueue.MediaFrameQueue.PushFrame | src/streamer/base_streamer.h:137-178 | The state after a push that need not wait. |
| FrameQueue.MediaFrameQueue.BlockPush | src/streamer/base_streamer.h:144-149 | A push that finds the queue full and may not drop waits. |
| FrameQueue.MediaFrameQueue.WakePush | src/streamer/base_streamer.h:144-167 | A waiting push that finds room stores its frame, though the queue may be flushing by then. |
| FrameQueue.MediaFrameQueue.PopFrame | src/streamer/base_streamer.h:68-92 | The first frame leaves the queue, if there is one. |
| FrameQueue.MediaFrameQueue.FlushFrames | src/streamer/base_streamer.h:228-245 | All frames leave the queue and pushes are refused. |
| UrlCodec.HexRoundTrip | src/utils/utils.cc:377-379 | Reading the two hexadecimal digits of a byte gives the byte, and neither digit is zero. |
| UrlCodec.EncodedByte | src/utils/utils.cc:353-375 | Letters, digits and - _ . ~ stay; every other byte becomes a percent sign and its two upper-case hexadecimal digits. |
| UrlCodec.EncodeConcat | src/utils/utils.cc:353-375 | Encoding goes byte by byte. |
| UrlCodec.DecodesPlus | src/utils/utils.cc:381-405 | Without a percent sign, decoding turns every plus into a space and changes nothing else. |
| UrlCodec.DecodesHex | src/utils/utils.cc:381-405 | A percent sign and two hexadecimal digits of either case become the byte of their value. |
| UrlCodec.LostPercentAtEnd | src/utils/utils.cc:381-405 | A percent sign with less than two bytes behind it fails; one followed by a zero byte is passed over. |
| UrlCodec.RoundTrip | src/utils/utils.cc:353-405 | URL decoding undoes URL encoding for every byte string. |
| UrlCodec.UrlEncode | src/utils/utils.cc:353-375 | The loop computes the encoding. |
| UrlCodec.UrlDecode | src/utils/utils.cc:381-405 | The loop computes the decoding, the lost percent sign included. |

## Left out

- Times are unbounded integers in clock ticks: overflow of 64-bit times, and of
  the timescale arithmetic of the recorder, is not modelled.
- Realtime pacing: the delay between chunks and its tuning change when a tick
  comes, not what it does, so ticks come at any time.
- Threads, atomics and timers: each scheduled callback is one atomic step; the
  delayed start of a synchronization is simply a later enqueue, and stopping the
  uploader is the end of a run.
- Uploader.Uploader.Enqueue: asks of a new segmenter a positive step, window start
  and window end, which `Segments.NewSegmentIsFreshIff` says of every event with a
  positive step that starts after the epoch; inverted windows are included.
- Uploader.Uploader.RedirectKnown: the new begin is the present time, so what the
  segmenter has planned is taken to lie before it.
- Uploader.Uploader.TickOn: the cloud listing is taken as answered, with anything
  in it; failing requests are not modelled.
- Uploader.Uploader.Choose: promises a settled segmenter only where no other
  waiting one has the same begin, because the sort is not stable.
- UploadSlots.Manager.DirectUploadSync: models the record queue only; the failure
  report of a request dropped as late is the upload-finished event of the uploader.
- UploadSlots.Manager.OnDirectUploadUrl: models records only; snapshots and meta
  files, error replies and the HTTP transfer are outside.
- RecordEvents.Manager.OnStreamStart: unknown stream ids, which the source refuses
  first, and the delivery modes of event states are left out.
- PackBits.PackBits: the packed bytes are a sequence, so writing past the caller's
  memory appears as the size exceeding it; an empty source, of which the original
  reads a byte, is excluded.
- PackBits.UnpackBits: a source that ends inside a block is reported where the
  original would read on.
- MotionMap.Pack: a packed grid larger than the reserved memory is reported where
  the original writes past it.
- Fragments.Sink.ProcessFrame: audio, which initialisation disables, the names and
  numbers of fragments and the inner sink are left out; frames handed on are kept
  as history.
- FrameQueue.MediaFrameQueue.PushFrame: the other push overload and end of stream
  are left out.
- UrlCodec.UrlEncode: letters and digits are those of the C locale.
- JSON commands, acknowledgements, HTTP, libwebsockets, ffmpeg, tunnelling,
  snapshots, calendar text and logging would only add easy members or foreign calls.
