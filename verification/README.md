# Verified models of the camera service

Dafny 4.11 models of the stateful parts of camera-service, and proofs of what they promise. Nothing
here runs the service; each module restates one part of it, branch by branch, and proves properties of
every input, every run or every interleaving of that part. `dafny verify dfyconfig.toml` checks all of it.

Code that updates an object in place is a class whose methods are proved against functions over the
object's state; what the code promises is proved about those functions. Threads that meet in a lock, a
queue or a flag are interleaved steps of a state machine. GStreamer's appsrc is a FIFO with an EOS mark,
clocks are parameters, and a choice of the environment (a full disk, a failed start, a lost packet) is an
argument of the step it happens in.

| files | part |
|---|---|
| `UvcAssembler`, `UvcHeader`, `UvcRecovery`, `UvcLoss`, `UvcLossExact` | USB video payloads to frames: the headers and the sender's side, exact recovery, safety under loss and where it ends (USB Device Class Definition for Video Devices 1.5, section 2.4.3.3) |
| `UvcBulk`, `UvcBulkLoss`, `UvcBulkSafety`, `UvcIso`, `UvcExtractor`, `UvcPasses` | the two transports under it, with and without losses, and the extractor object |
| `SessionProtocol`, `Session` | closing a recording session while its feeder may be blocked; the keyframe gate |
| `Ownership`, `Pipeline`, `Operations` | who opens and ends sessions: commands, errors, end of playback, stop, shutdown; the remembered state |
| `Reconnect` | the reconnect worker against shutdown |
| `Pts`, `PtsTimeline` | the recording timeline |
| `ReplayTimeline`, `Median`, `Replay`, `ReplayLoop`, `PcapFeed`, `PcapCycle`, `Pacing`, `PacingTimes`, `Playback` | playing recordings and captures back |
| `Sidecar`, `RecordReplay` | the per-frame rows, and the way from a recording to its replay |
| `PcapIo`, `PcapClassic`, `PcapNg`, `PcapNgWrite`, `CaptureBytes` | capture files |
| `BosonCrc`, `Boson`, `BosonWire`, `BosonSplitter` | the Boson's serial framing |
| `BayerTile`, `BayerColours`, `Keyframe`, `KeyframeStreams`, `Yuv`, `YuvLayouts`, `YuvPictures`, `Throttle` | CFA tiling, sync points, colour conversion, rate limiting |

## Where the code is narrower than its comments

Each of these is kept as the code has it, with the exact condition under which the promise holds:

- Whatever is lost of a raw stream, only frames sent come out at their times, exactly if the data of each
  frame begins at the frame's time: a frame that opens with header-only payloads and has its data later
  can come out with a later payload's time (`UvcLossExact.LossSafetyExactly`).
- An ERR payload takes the rest of its frame with it, with two exceptions: one that is also the first to
  reveal a lost EOF, and one that has no data and the FID last finished, which is taken for a keepalive
  (`UvcLossExact.ErrSkipsRestExactly`). The second frame then comes out, with its second payload's time
  (`UvcLossExact.ErrTakenForKeepalive`).
- A bulk transfer that goes on after one of its URBs was lost is cut into payloads from the next URB on.
  Whatever follows, nothing wrong comes of what is left at its end exactly if that does not open another
  frame: it is not the bare header of one, or not of one that is news to the assembler
  (`UvcBulkSafety.BulkLossExactly`, `UvcBulkSafety.ContinuationOpensFrame`).
- A recording starts on a sync point, unless the first one is lost to the queue bound or a flushing
  appsrc: the gate opens before the push is known to succeed (`Session.GateWorksExactly`).
- The stop signal's handler runs in the middle of a transition. A stop while a session is being built is
  followed by that session opening (`Ownership.NothingOpensAfterStop`); one between publishing a session
  and setting the phase leaves the phase active with nothing recorded
  (`Ownership.ActiveIffRecordingExactly`, `Ownership.StrandingRun`); one between deactivate's look at the
  session and its taking it down has the session finalised twice (`Ownership.SessionsAreOrderlyExactly`);
  and one inside a transition that has begun is followed by the state file being written again
  (`Ownership.StopForgetsExactly`).
- A reconnect's first wait is not capped (`Reconnect.CapHoldsExactly`). After a timed-out join the device
  stays held exactly if a late reopen fails with the device in hand, or stopping the source it reopened
  raises (`Reconnect.HeldAtTheEndExactly`, `Reconnect.LateFailedReopenKeepsDevice`).
- The advertised duration of a replay leaves out capped gaps that lie outside the window and counts the
  silence behind the window's last row (`Replay.DurationAgainstNotes`), so a frame can stand past it
  (`ReplayTimeline.WindowedPositionOvertakes`) or it can end long after the last one
  (`ReplayTimeline.DurationCountsSilence`).
- A looping replay starts over at its end, unless its window cuts the last session it reaches short: the
  first row behind the window finishes the playback, loop or no loop (`ReplayLoop.LoopsExactly`).
- The cycle length of a capture is measured on the first pass even if a restart cut it short
  (`PcapFeed.RunsForwardExactly`, `PcapFeed.CutPassExactly`, `PcapFeed.CutPassMeasuresTooLittle`).
- A resume or a new speed lets frames burst out ahead of the time spent playing exactly when it sets a
  baseline ahead of what has been paid for; a rebase does when the newest frame waited for is not paid for
  yet, so only while it sleeps (`Pacing.PausesAreNotCaughtUpExactly`, `Pacing.UnpaidIsNewestUnpaid`,
  `Pacing.SpeedIntoSleep`).
- A restart whose hook raises is refused though it may have been honoured: exactly if its flag was taken
  before (`Playback.ReplyTellsExactly`, `Playback.RefusedYetHonoured`). One from the end of a playback also
  leaves it declared playing, and one with an earlier restart still pending gives that up too
  (`Playback.RefusalChangesNothingExactly`).
- A restart sets the row counter back before the reader is flushed: a frame of the old cycle that comes
  through in between shifts the rows of all that follow, and the session fails
  (`Replay.LateFramesAreDetected`).
- A sidecar whose queue stays full for the second that stop() waits gets no sentinel, and its writer never ends
  (`Sidecar.StopEndsWriterExactly`).
- An interface option with its value missing ends reading without a format error
  (`PcapNg.CrashExactly`).
- The size check of a YUV frame fits its reads only for even dimensions (`Yuv.CheckProtectsExactly`).

## Model

| member | source | states |
|---|---|---|
| `UvcRecovery.ExactRecovery` | core-driver/cam_driver/uvcpcap.py:469-532 | without loss, any division into payloads, EOF optional but on the last frame, keepalives, repeated FIDs after a lost frame: exactly the frames that pass validation come out, bit-exact, in order, with their first payload's timestamp, and the counters add up |
| `UvcRecovery.RawFramesAllAccepted` | core-driver/cam_driver/uvcpcap.py:481-485 | raw frames of the configured size are all among them |
| `UvcRecovery.ResyncAfterOneIntactFrame` | core-driver/cam_driver/uvcpcap.py:498-526 | from any state whatever, one intact frame resynchronises and the next one comes out exactly |
| `UvcRecovery.OutGrows` | core-driver/cam_driver/uvcpcap.py:469-485 | frames handed out are never taken back or reordered |
| `UvcHeader.FieldsReadBack` | core-driver/cam_driver/uvcpcap.py:275-288 | a payload built from its header's fields (flags, a PTS of 4 bytes, an SCR of 6, padding) is taken, strictly exactly if it has no padding, and its flags and data are read back |
| `UvcHeader.TakenExactly` | core-driver/cam_driver/uvcpcap.py:275-288 | whatever length a header declares: taken exactly if that is the length of its clocks (strict), or leaves room for them (tolerant), and the payload is that long |
| `UvcHeader.AcceptedExactly` | core-driver/cam_driver/uvcpcap.py:469-485 | a buffer is a frame exactly if it is the image itself, of the configured size, or a whole JPEG with nothing but zeros behind it |
| `UvcHeader.CameraStreamRecovered` | core-driver/cam_driver/uvcpcap.py:275-532 | images cut up in any way under headers with any clocks, the FID toggling: exactly the images come out, each with the time of its first piece |
| `UvcLoss.LossSafety` | core-driver/cam_driver/uvcpcap.py:469-532 | each frame having its data begin at its own time and toggling the FID: with any payloads lost, garbled, ERR-flagged or gone unreported while no frame is in progress, and noise anywhere, raw output is an in-order subsequence of the frames whose every payload from the first with data on was delivered, bit-exact and with their times: no hole, no splice, no damaged data |
| `UvcLossExact.LossSafetyExactly` | core-driver/cam_driver/uvcpcap.py:498-532 | for raw streams with times of their own that condition is exact: only frames sent come out at their times, whatever is lost, if and only if each frame's data begins at the frame's time; reported losses are enough to tell |
| `UvcLossExact.RestIsSafeExactly` | core-driver/cam_driver/uvcpcap.py:487-532 | in any such lossy stream, the rest of a payload that is handed over after noise is harmless to any intact frame that comes next (its data beginning at its time) if and only if it does not open another frame |
| `UvcLossExact.ErrSkipsRestExactly` | core-driver/cam_driver/uvcpcap.py:497-521 | after an ERR payload the next sound one of its frame is skipped exactly unless the first toggled the FID during accumulation, or had no data and the FID last finished; then the frame begins with the next payload, or the next with data |
| `UvcLossExact.ErrTakenForKeepalive` | core-driver/cam_driver/uvcpcap.py:497-506 | a run in which the errored frame comes out, with its second payload's time |
| `UvcLossExact.SilentLossSplices` | core-driver/cam_driver/uvcpcap.py:513-521 | payloads that nothing reports lost in the middle of a frame: two frames of one FID spliced |
| `UvcBulk.OneTransfer` | core-driver/cam_driver/uvcpcap.py:574-632 | one bulk transfer, cut into URBs anywhere and ended by a short URB, a ZLP, a URB with no request on record or nothing at all after payloads of dwMaxPayloadTransferSize, gives its payloads at that size, each with the time of its first byte |
| `UvcBulk.BulkTransport` | core-driver/cam_driver/uvcpcap.py:574-632 | the same for any number of transfers in a row: URBs in, the payloads sent out |
| `UvcBulk.BulkExactRecovery` | core-driver/cam_driver/uvcpcap.py:487-632 | bulk transport and reassembly together return the frames sent |
| `UvcBulk.ChunksOfSized` | core-driver/cam_driver/uvcpcap.py:622-625 | payloads of the maximum size but the last are recovered from their concatenation |
| `UvcBulkSafety.TransferFates` | core-driver/cam_driver/uvcpcap.py:574-632 | a transfer of any payloads with any URBs not captured whole: its payloads are delivered in step, lost and reported once out of step, until a URB begins where a payload does; what is left at its end is handed over as a payload |
| `UvcBulkSafety.BulkLossSafety` | core-driver/cam_driver/uvcpcap.py:469-632 | loss safety over a bulk endpoint, any number of payloads to a transfer, any URBs missing or cut, if nothing cut out of step has a header but an end of a transfer that is an end of its payload's data and not the bare header of another frame |
| `UvcBulkSafety.BulkLossExactly` | core-driver/cam_driver/uvcpcap.py:498-632 | after any such capture and one more transfer that is out of step at its end, whatever intact frame comes next only frames sent come out at their times, if and only if what is left of that transfer does not open another frame |
| `UvcBulkSafety.LosingTheRestIsSafe` | core-driver/cam_driver/uvcpcap.py:588-608 | in particular if every loss takes the rest of its transfer with it |
| `UvcBulkSafety.ContinuationOpensFrame` | core-driver/cam_driver/uvcpcap.py:588-632 | one lost URB whose transfer goes on with bytes that read as a header: a frame comes out that was never sent |
| `UvcIso.IsoReportsLosses` | core-driver/cam_driver/uvcpcap.py:157-178 | every packet of an isochronous URB in any buffer layout is delivered whole or reported lost, according to its status and the cut of the capture; besides those one loss for each failed packet that was empty, and nothing else |
| `UvcIso.IsoLossSafety` | core-driver/cam_driver/uvcpcap.py:157-178 | loss safety over isochronous URBs with any packets failed, empty ones too, and cut captures, for frames whose data begins at their time |
| `UvcIso.IsoExactRecovery` | core-driver/cam_driver/uvcpcap.py:535-569 | exact recovery over undamaged isochronous URBs |
| `UvcExtractor.UvcFrameExtractor.FinalizeFrame` | core-driver/cam_driver/uvcpcap.py:469-485 | the object's step is the assembler's, counters included |
| `UvcExtractor.UvcFrameExtractor.BeginFrame` | core-driver/cam_driver/uvcpcap.py:528-532 | a new frame: its FID and time, an empty buffer |
| `UvcExtractor.UvcFrameExtractor.FeedPayload` | core-driver/cam_driver/uvcpcap.py:487-526 | one payload through AWAIT, ACCUM and SKIP |
| `UvcExtractor.UvcFrameExtractor.FeedIso` | core-driver/cam_driver/uvcpcap.py:558-566 | one isochronous URB is the run of its packets |
| `UvcExtractor.UvcFrameExtractor.DrainPending` | core-driver/cam_driver/uvcpcap.py:622-625 | the maximum-size payloads at the front of the assembly are fed, the rest kept with the current time |
| `UvcExtractor.UvcFrameExtractor.FeedBulkUrb` | core-driver/cam_driver/uvcpcap.py:574-632 | one bulk URB, all its ends and losses, with its request consumed exactly where the code does |
| `UvcExtractor.UvcFrameExtractor.Extract` | core-driver/cam_driver/uvcpcap.py:535-651 | a pass from any earlier state: the frames of the records, or the error of a pass without any |
| `UvcExtractor.VerdictIsFrames` | core-driver/cam_driver/uvcpcap.py:634-651 | a pass succeeds exactly if a frame came out, and returns all that did |
| `UvcPasses.PassFailsFor` | core-driver/cam_driver/uvcpcap.py:634-651 | the error of a pass exactly: nothing completed on the endpoint, or buffers that all failed validation, or none at all; with a frame out, none |
| `UvcPasses.CleanCounters` | core-driver/cam_driver/uvcpcap.py:422-532 | an undamaged stream counts its frames as valid or dropped, its keepalives, and no fault of any kind |
| `UvcPasses.RequestOfUrb` | core-driver/cam_driver/uvcpcap.py:545-607 | each completed URB is held against the length last asked for under its id, unless a URB captured whole or empty has used that up |
| `UvcPasses.OversizeExactly` | core-driver/cam_driver/uvcpcap.py:608-621 | a payload is given up exactly when a URB brings it above 64 MiB, and nothing is kept of it |
| `UvcExtractor.BulkCapture` | core-driver/cam_driver/uvcpcap.py:535-632 | a bulk capture with requests and completions interleaved anyhow returns the frames sent |
| `UvcExtractor.IsoCaptureFrames` | core-driver/cam_driver/uvcpcap.py:535-572 | an undamaged isochronous capture returns the frames sent |
| `SessionProtocol.StepKeepsInv` | core-driver/cam_driver/session.py:147-212 | what every step of feeder, closer, muxer and bus keeps: lock ownership, the books, the EOS count |
| `SessionProtocol.BooksAgree` | core-driver/cam_driver/session.py:181-191 | in every interleaving, with no push in progress, buffers accepted, `frames` and sidecar rows are one sequence |
| `SessionProtocol.EosExactlyOnce` | core-driver/cam_driver/session.py:193-212 | at most one EOS, none before a close; after it, one exactly if a frame was accepted |
| `SessionProtocol.NothingAfterClose` | core-driver/cam_driver/session.py:147-151 | once begin_close has returned nothing is accepted, counted or recorded, whatever runs |
| `SessionProtocol.NoDeadlock` | core-driver/cam_driver/session.py:198-212 | a closer waiting for the lock always waits for a feeder that can step and is nearer to releasing it, also on a full queue that never drains |
| `SessionProtocol.BlockedPushHoldsTheLock` | core-driver/cam_driver/session.py:200-206 | why EOS precedes the lock: a push blocked on a full queue holds it, and then a frame has been accepted |
| `SessionProtocol.QueueStaysBounded` | core-driver/cam_driver/session.py:165-173 | over every run, a live camera's queue never holds more than its bound |
| `SessionProtocol.BlockingQueueStaysBounded` | core-driver/cam_driver/session.py:165-173 | nor does a playback's, but for the newest frame |
| `Session.PushRun` | core-driver/cam_driver/session.py:147-191 | a whole push, read off its atomic steps: the answer in the order of the checks, one frame in every book or in none, the flags |
| `Session.RefusedForRoomExactly` | core-driver/cam_driver/session.py:165-191 | with nothing else in its way a frame that fits to the byte is taken and one a byte longer dropped, without a trace in the books; an unbounded or waiting queue refuses none |
| `Session.RecordingSession.Push` | core-driver/cam_driver/session.py:147-191 | the object's push gives that answer and makes those changes |
| `Session.RecordingSession.Emit` | core-driver/cam_driver/session.py:184-191 | accepted, counted and recorded together, or refused |
| `Session.RecordingSession.BeginClose` | core-driver/cam_driver/session.py:193-212 | a second close changes nothing; the first sends EOS exactly if a frame was accepted |
| `Session.GateWorksExactly` | core-driver/cam_driver/session.py:152-188 | however long the wait for the first sync point, every recording starts on a sync point if and only if that one is not lost to the queue bound or a flushing appsrc |
| `Session.SkippedAreCounted` | core-driver/cam_driver/session.py:152-160 | the frames counted as skipped are exactly those before the first sync point, and of a raw recording none |
| `Ownership.ActiveIffRecordingExactly` | core-driver/cam_driver/pipeline.py:909-977 | at rest, active exactly when a session is published, over every run with stops between any two steps of a transition, if and only if no first stop fell between publishing a session and setting the phase; none is published once the process is down |
| `Ownership.StrandingStop` | core-driver/cam_driver/pipeline.py:953-954 | what such a stop leaves: the session finalised, the phase active, active remembered |
| `Ownership.StrandingRun` | core-driver/cam_driver/pipeline.py:953-954 | a run that gets there from boot |
| `Ownership.SessionsAreOrderlyExactly` | core-driver/cam_driver/pipeline.py:909-1090 | at rest over every run: one session at a time, numbers strictly up, each finalised at most once and under the settings it was opened with, all finalised at the end, if and only if no first stop fell between deactivate's look at the session and its taking it down |
| `Ownership.NothingOpensAfterStop` | core-driver/cam_driver/pipeline.py:909-954 | no session opens after a stop, if and only if the stop did not fall into the building of one |
| `Ownership.MemoryIsHonest` | core-driver/cam_driver/lifecycle.py:114-216 | booted and not stopping, the remembered state is absent or the real one |
| `Ownership.StopForgetsExactly` | core-driver/main.py:148-154 | after a deliberate stop nothing is remembered, if and only if it came at rest or before the pipeline had looked at a command |
| `Pipeline.WholeIsRun` | core-driver/cam_driver/pipeline.py:909-977 | an uninterrupted operation is a run of steps, neither stranded nor torn, and back at rest |
| `Pipeline.BootsInto` | core-driver/cam_driver/lifecycle.py:114-139 | from any remembered state, in terms of setup and memory alone: idle with recording disabled, the remembered state if there is one to resume, else the configured one; a recorder that cannot start then ends the process |
| `Operations.ActivateExactly` | core-driver/cam_driver/pipeline.py:909-961 | from any state at rest: a session opens exactly if recording is enabled, none is open, no stop has begun and the recorder starts; a failed start costs a number, a refusal nothing |
| `Operations.DeactivateExactly` | core-driver/cam_driver/pipeline.py:963-977 | the session there is ends, finalised under the settings of the day and remembered as inactive; without one nothing changes |
| `Operations.ErrorExactly` | core-driver/cam_driver/pipeline.py:1046-1063 | a recorder's error ends its own session and no other, and none while stopping; it can be fatal |
| `Operations.PlaybackEndExactly` | core-driver/cam_driver/pipeline.py:1179-1206 | a failed playback stops the process as fatal, one not to be held cleanly, and one that is held ends the session the first time only |
| `Operations.StopExactly` | core-driver/main.py:148-154 | a stop ends the session the first time and forgets the remembered state every time; twice is once |
| `Operations.ShutdownExactly` | core-driver/cam_driver/pipeline.py:1326-1346 | what is still published is finalised, stopped before or not |
| `Operations.ConfigureExactly` | core-driver/cam_driver/pipeline.py:874-895 | settings that would be taken are taken exactly if recording is enabled, nothing is open and no stop has begun |
| `Pipeline.CapturePipeline.Boot` | core-driver/cam_driver/lifecycle.py:114-139 | the remembered or configured state is entered before the first frame; a recorder that cannot start ends the process |
| `Pipeline.CapturePipeline.Activate` | core-driver/cam_driver/pipeline.py:909-961 | the request, its refusals and a failed start included, is that run |
| `Pipeline.CapturePipeline.OpenSession` | core-driver/cam_driver/pipeline.py:919-961 | a failed start leaves the pipeline inactive with the number used up |
| `Pipeline.CapturePipeline.Deactivate` | core-driver/cam_driver/pipeline.py:963-977 | likewise; no session is left |
| `Pipeline.CapturePipeline.FinaliseFor` | core-driver/cam_driver/pipeline.py:968-977 | one session ended, whoever asked |
| `Pipeline.CapturePipeline.OnSessionError` | core-driver/cam_driver/pipeline.py:1046-1063 | only the published session, and not while stopping |
| `Pipeline.CapturePipeline.RequestStop` | core-driver/cam_driver/pipeline.py:1066-1090 | the first call ends the published session |
| `Pipeline.CapturePipeline.Shutdown` | core-driver/cam_driver/pipeline.py:1326-1346 | ends what is still published |
| `Pipeline.CapturePipeline.WatchEnd` | core-driver/cam_driver/pipeline.py:1179-1206 | the end of playback: exit, or finalise |
| `Pipeline.CapturePipeline.Hold` | core-driver/cam_driver/pipeline.py:1195-1206 | a held end finalises once |
| `Pipeline.CapturePipeline.Configure` | core-driver/cam_driver/pipeline.py:874-895 | the settings change only with no session and no stop |
| `Reconnect.FlagMeansWorker` | core-driver/cam_driver/pipeline.py:1207-1230 | in every interleaving the flag is up exactly while a worker lives or is being started, so it is cleared on every exit, there is one worker, and the next disconnect is seen |
| `Reconnect.NoReopenAfterStop` | core-driver/cam_driver/pipeline.py:1239-1253 | once a stop has begun, no reopen is begun |
| `Reconnect.NoWorkerAfterStop` | core-driver/cam_driver/pipeline.py:1183-1217 | no worker starts after a stop, if and only if the stop did not fall into the watchdog's tick |
| `Reconnect.StoppedWorkerLeaves` | core-driver/cam_driver/pipeline.py:1286-1292 | every step of a stopped worker brings it nearer to its end |
| `Reconnect.JoinedEndsReleased` | core-driver/cam_driver/pipeline.py:1308-1353 | after a successful join the device is released and nothing takes it again |
| `Reconnect.HeldAtTheEndExactly` | core-driver/cam_driver/pipeline.py:1239-1256 | with a join that timed out too: once shutdown and the worker have ended, the device is held if and only if, after its close, a reopen failed with the device in hand or stopping a reopened source raised |
| `Reconnect.LateFailedReopenKeepsDevice` | core-driver/cam_driver/pipeline.py:1286-1290 | a run in which one does not, and the device stays held |
| `Reconnect.WaitsAreCappedPowers` | core-driver/cam_driver/pipeline.py:1237-1292 | the waits in closed form, whatever interleaves |
| `Reconnect.CapHoldsExactly` | core-driver/cam_driver/pipeline.py:1237-1291 | all waits stay within the cap if and only if the first does |
| `Pts.PtsSource.PtsFor` | core-driver/cam_driver/pipeline.py:481-543 | one call by either caller |
| `Pts.PtsSource.Forget` | core-driver/cam_driver/pipeline.py:1268-1269 | a reconnect empties the memo and nothing else |
| `Pts.OwnerFollowsIdeal` | core-driver/cam_driver/pipeline.py:513-543 | base, skew and last PTS compute the reference timeline: each PTS is the one before plus the stamp difference in (0, 60 s], or plus one frame interval with one counted rebase; never negative, strictly increasing |
| `Pts.IncreasingExactly` | core-driver/cam_driver/pipeline.py:284 | over all runs this holds if and only if the frame interval is positive |
| `Pts.ReadsChangeNothing` | core-driver/cam_driver/pipeline.py:519-523 | a run without its read-only calls is the same run |
| `Pts.RememberedAnswer` | core-driver/cam_driver/pipeline.py:516-518 | either caller gets the owner's value for the last 256 frames it computed |
| `Pts.BranchesAgree` | core-driver/cam_driver/pipeline.py:539-542 | until a reconnect or 256 more frames, both branches stamp a frame alike |
| `Pts.ReadExtrapolates` | core-driver/cam_driver/pipeline.py:519-523 | any other frame is placed relative to the newest recorded one, not before zero |
| `PtsTimeline.RecordedSpacing` | core-driver/cam_driver/pipeline.py:526-540 | over every run the first recorded frame is at zero and each one after it as far from the one before as the stamps are, or one frame interval if these do not go forward or go more than a minute forward |
| `PtsTimeline.RemembersLast256` | core-driver/cam_driver/pipeline.py:513-543 | a frame is remembered exactly while it is among the last 256 computed since the last reconnect, and then both callers get the value computed |
| `PtsTimeline.ReadsExtrapolate` | core-driver/cam_driver/pipeline.py:519-523 | the read-only caller places any other frame as far from the newest recorded one as the stamps are apart, at zero if that is before it or nothing is recorded |
| `ReplayTimeline.Duration` | core-driver/cam_driver/sources/replay.py:224-238 | the loop over the gaps computes the length of the window less every excess over the cap |
| `ReplayTimeline.EffectiveIsSkipped` | core-driver/cam_driver/sources/replay.py:517-580 | subtracting the silence skipped so far is effective time: recorded inside a session, at most the cap across a boundary |
| `ReplayTimeline.OutsideIsMissing` | core-driver/cam_driver/sources/replay.py:224-238 | the duration falls short of the end of the window by the capped silence outside it, and by nothing exactly if no such gap is capped |
| `ReplayTimeline.DurationExactly` | core-driver/cam_driver/sources/replay.py:224-238 | the duration is the last row's position plus the silence behind it less the capped silence outside the window; every row stands before it, or within one interval of it, exactly if the former exceeds the latter, by an interval at most |
| `ReplayTimeline.SilenceExactly` | core-driver/cam_driver/sources/replay.py:224-228 | that silence is at most one interval exactly if the window plays to the run's end or ends within an interval of its last row |
| `ReplayTimeline.DurationCountsSilence` | core-driver/cam_driver/sources/replay.py:229-236 | a window that ends between two sessions: 500 s advertised, the last frame at 10 s |
| `ReplayTimeline.PositionsBelowWindowEnd` | core-driver/cam_driver/sources/replay.py:517-518 | with rows in order, every position lies between zero and the end of the window in effective time |
| `ReplayTimeline.UnwindowedEnds` | core-driver/cam_driver/sources/replay.py:224-238 | without a window a cycle starts at zero and ends one median interval short of the duration |
| `ReplayTimeline.WindowedPositionOvertakes` | core-driver/cam_driver/sources/replay.py:229-236 | a window after a long gap whose first frame is past the advertised end |
| `ReplayTimeline.FirstSession` | core-driver/cam_driver/sources/replay.py:217-223 | the first session whose last row is not before the window |
| `ReplayTimeline.MedianPositive` | core-driver/cam_driver/playback.py:181-186 | the interval is positive whatever the rows |
| `Median.MedianIsMedian` | core-driver/cam_driver/playback.py:181-186 | of the forward steps at least half are at most the answer and at least half at least it; in whatever ascending order, it is the middle one, or the floor of the mean of the middle two; without one, 33 333 333 ns |
| `Median.GapsDoNotMatter` | core-driver/cam_driver/playback.py:181-186 | an interval that most steps have is the answer, however long the gaps |
| `Median.StepsAre` | core-driver/cam_driver/playback.py:185 | a step counts once for each place at which the stamps go forward by it, and no other place counts |
| `Replay.ReplaySource.OnBuffer` | core-driver/cam_driver/sources/replay.py:482-519 | a frame off the reader: the row it gets, the window, a missing row |
| `Replay.ReplaySource.OnEos` | core-driver/cam_driver/sources/replay.py:556-585 | row count, next session with its skipped silence, loop or end |
| `Replay.ReplaySource.StartOver` | core-driver/cam_driver/sources/replay.py:587-618 | a wrap or restart from any state is the start of the next cycle |
| `Replay.EveryNotePlaced` | core-driver/cam_driver/sources/replay.py:482-519 | over any events, each frame handed on is a row inside the window, shifted to its cycle, at its effective time |
| `Replay.RestartsMoveForward` | core-driver/cam_driver/sources/replay.py:594-599 | over any wraps and restarts, a later cycle's stamps exceed all of an earlier one's |
| `Replay.ShiftKeepsDifferences` | core-driver/cam_driver/playback.py:189-200 | all differences between and within the time fields of a cycle survive the shift |
| `Replay.CyclePlaysWindow` | core-driver/cam_driver/sources/replay.py:471-480 | a reader that delivers every frame plays exactly the rows inside the window, each once and in order |
| `Replay.DurationAgainstNotes` | core-driver/cam_driver/sources/replay.py:224-238 | the same of the notes of a cycle: the duration against the position noted for its last frame |
| `Replay.SessionCounts` | core-driver/cam_driver/sources/replay.py:529-541 | a session fails exactly if its frames are not as many as its rows |
| `Replay.LateFramesAreDetected` | core-driver/cam_driver/sources/replay.py:606-610 | frames of the old cycle that come after the row counter was set back shift the rows of those that follow, and then the session fails, exactly |
| `Replay.NthFrame` | core-driver/cam_driver/sources/replay.py:484-487 | frame i of a session meets row i, in every cycle |
| `ReplayLoop.LoopsExactly` | core-driver/cam_driver/sources/replay.py:497-585 | after a reader has delivered a whole cycle: the next cycle from its start exactly if the replay loops and no row of the last session reached lies behind the window, else the end, and never a failure |
| `ReplayLoop.StartsOver` | core-driver/cam_driver/sources/replay.py:587-618 | a replay starts, and a restart from any state goes on, at the first row of the window's first session, unfinished and unfailed, its stamps moved by whole cycles |
| `ReplayLoop.FailedIsOver` | core-driver/cam_driver/sources/replay.py:471-541 | a replay that has failed hands on nothing more until a restart, whatever its reader does |
| `ReplayLoop.FailuresFinish` | core-driver/cam_driver/sources/replay.py:484-560 | and every failure ends it |
| `PcapFeed.PcapFeeder.PlayPass` | core-driver/cam_driver/sources/pcapsrc.py:175-246 | one pass: its stamps, the measured length, the next cycle or the end |
| `PcapFeed.FirstPassDecides` | core-driver/cam_driver/sources/pcapsrc.py:230-246 | a non-zero length measured by the first pass is that of every cycle |
| `PcapFeed.ForwardExactly` | core-driver/cam_driver/sources/pcapsrc.py:244-246 | where frames of all cycles may be placed, later cycles are later if and only if a cycle is longer than the frames are apart |
| `PcapFeed.RunsForwardExactly` | core-driver/cam_driver/sources/pcapsrc.py:230-246 | over runs: after a first pass that measured any length, no later pass, looped or restarted anywhere, runs time backwards if and only if that length exceeds what the frames are apart |
| `PcapFeed.RunsForward` | core-driver/cam_driver/sources/pcapsrc.py:230-246 | after a complete first pass over a capture that takes time, no loop or restart runs time backwards |
| `PcapFeed.CutPassExactly` | core-driver/cam_driver/sources/pcapsrc.py:230-246 | a cut first pass is enough for all passes that may follow exactly if what it had read, and one interval, outlast the frames |
| `PcapFeed.CutPassMeasuresTooLittle` | core-driver/cam_driver/sources/pcapsrc.py:230-246 | a capture, a restart on its first frame and two passes: the second starts before the last frame of the first |
| `PcapCycle.PassEndsExactly` | core-driver/cam_driver/sources/pcapsrc.py:230-246 | the next cycle follows a pass exactly if a restart cut it, or it loops and had frames; a complete pass without frames fails, one without a loop is the end |
| `PcapCycle.EvenRhythm` | core-driver/cam_driver/sources/pcapsrc.py:227-246 | a capture with an even frame rate loops at that rate, the next cycle one interval after the last frame; a single frame lasts 33 333 333 ns |
| `Pacing.Pacer.Wait` | core-driver/cam_driver/playback.py:248-269 | the baseline made or kept, and when the frame is let go |
| `Pacing.Pacer.Rebase` | core-driver/cam_driver/playback.py:238-242 | the last data time is due now |
| `Pacing.Pacer.SetSpeed` | core-driver/cam_driver/playback.py:244-246 | the new pace applies from here on |
| `Pacing.Pacer.ReleaseAt` | core-driver/cam_driver/playback.py:350-357 | a release from the boot hold: the zero is due now and what was played is forgotten |
| `Pacing.ReleasedTogether` | core-driver/cam_driver/playback.py:231-236 | players released together at one zero and speed let frames of the same timestamp go at the same moment, whatever each did before |
| `Pacing.PausesAreNotCaughtUpExactly` | core-driver/cam_driver/playback.py:203-269 | over every run of frames, pauses, resumes, boot releases, speed changes and restarts in which no new baseline is ahead of what was paid for, no frame goes out beyond what the time spent playing pays for; and after any of them a move keeps it so for all that may follow if and only if it sets no such baseline |
| `Pacing.UnpaidIsNewestUnpaid` | core-driver/cam_driver/playback.py:238-246 | a rebase or new speed is one exactly if the newest frame waited for is not paid for yet, never if the feeder is not asleep |
| `Pacing.SpeedIntoSleep` | core-driver/cam_driver/playback.py:244-246 | a run that gets there |
| `Pacing.RestOfSleepIsCaughtUp` | core-driver/cam_driver/playback.py:238-246 | when one does, exactly the frames within the rest of that sleep, at the new speed, go without a wait |
| `PacingTimes.AfterResume` | core-driver/cam_driver/playback.py:520-538 | after a resume a frame goes out as far after it as it is from the last one before the pause, or from the zero if nothing has played |
| `PacingTimes.AfterSpeed` | core-driver/cam_driver/playback.py:244-246 | after a new speed, as far as it is from the last one, at that speed |
| `PacingTimes.AfterRestart` | core-driver/cam_driver/playback.py:222-269 | after a restart, as far after the first frame as that is from the zero; without a zero at once |
| `PacingTimes.SteadyPace` | core-driver/cam_driver/playback.py:248-269 | between such moves, two frames that both wait go out as far apart as their timestamps are at the speed, whatever came between |
| `PacingTimes.PausedRun` | core-driver/cam_driver/playback.py:478-493 | while it is paused no frame comes or goes out |
| `PacingTimes.Unpaced` | core-driver/cam_driver/playback.py:251-253 | at speed 0 a frame goes out as it comes and sets no baseline |
| `PacingTimes.PaidFor` | core-driver/cam_driver/playback.py:203-269 | what the time spent playing pays for in that account, move by move |
| `Playback.PlaybackState.Request` | core-driver/cam_driver/playback.py:506-552 | pause, resume and restart from every state, refusals included, up to where a restart lets the lock go |
| `Playback.PlaybackState.Answer` | core-driver/cam_driver/playback.py:553-573 | the rest of a restart: refused if its hook raised, else granted and still pending or not |
| `Playback.PlaybackState.WaitIfPaused` | core-driver/cam_driver/playback.py:478-493 | the verdict once the feeder is not held, and the flag it consumes |
| `Playback.PlaybackState.TakeRestart` | core-driver/cam_driver/playback.py:462-469 | true once for a pending restart |
| `Playback.PlaybackState.TakePreroll` | core-driver/cam_driver/playback.py:471-476 | true once, if playback boots paused |
| `Playback.EachRestartTakenOnce` | core-driver/cam_driver/playback.py:462-573 | in every interleaving of a request's parts with feeder and source each restart joined a pending one, was honoured by exactly one taker, was given up by a request whose hook raised, or is pending; and each request is granted, refused or on its way |
| `Playback.ReplyTellsExactly` | core-driver/cam_driver/playback.py:548-571 | the reply against what became of the restart: a granted one says pending exactly if nobody took the flag, a refused one gave the restart up exactly if nobody did |
| `Playback.RefusedYetHonoured` | core-driver/cam_driver/playback.py:548-563 | a feeder takes the flag before the hook raises |
| `Playback.PendingWakes` | core-driver/cam_driver/playback.py:484-493 | a pending restart gets a held feeder going and stays until somebody takes it or its request is refused |
| `Playback.PlaybackState.MarkFinished` | core-driver/cam_driver/playback.py:495-503 | finished from any state |
| `Playback.RefusalChangesNothingExactly` | core-driver/cam_driver/playback.py:511-567 | a refused request leaves phase and flag as they were, whatever feeder and source do meanwhile, exactly unless it is a restart whose source raised from the end of the playback or with an earlier restart pending |
| `Playback.PauseHolds` | core-driver/cam_driver/playback.py:520-523 | a served pause with no restart pending holds the feeder over every run of feeder, source and main loop in which no resume or restart is served and the playback does not end |
| `Playback.HoldEndsExactly` | core-driver/cam_driver/playback.py:478-538 | a hold ends with a move exactly if the move is one of these |
| `Playback.BootsHeld` | core-driver/cam_driver/playback.py:471-493 | a playback that boots paused is held from the start |
| `Playback.ResumeFrees` | core-driver/cam_driver/playback.py:524-533 | after a served resume the feeder is not held until another pause |
| `Playback.PauseAndResume` | core-driver/cam_driver/playback.py:511-533 | pausing and resuming leave the restart flag, its ledger and the boot frame alone; twice is once, the last one counts, and an ended playback does neither |
| `Playback.RestartKeepsPause` | core-driver/cam_driver/playback.py:514-518 | a restart raises the flag, keeps a pause and ends a finish |
| `Playback.StaysFinished` | core-driver/cam_driver/playback.py:495-518 | an ended playback stays ended, short of a restart of one that can be restarted |
| `Playback.FirstFrameShownOnce` | core-driver/cam_driver/playback.py:471-476 | the frame shown past the hold is there exactly if playback booted paused and nothing has taken it |
| `Sidecar.SidecarWriter.Add` | core-driver/cam_driver/sidecar.py:129-139 | queued, or counted, or dropped with the writer gone |
| `Sidecar.SidecarWriter.WriteNext` | core-driver/cam_driver/sidecar.py:147-156 | a row written, the sentinel, or a failed disk |
| `Sidecar.SidecarWriter.Drain` | core-driver/cam_driver/sidecar.py:170-175 | after a failure nobody is left waiting |
| `Sidecar.SidecarWriter.Stop` | core-driver/cam_driver/sidecar.py:177-186 | the sentinel, if there is room |
| `Sidecar.RowsAreSubsequence` | core-driver/cam_driver/sidecar.py:129-190 | in every interleaving the rows are an in-order subsequence of those offered; after an unfailed end exactly the counted ones are missing |
| `Sidecar.StopEndsWriterExactly` | core-driver/cam_driver/sidecar.py:147-186 | after stop(), with a disk that works, the writer ends if and only if there was room for the sentinel or it had failed; else it empties the queue and waits on |
| `Sidecar.QueueBounded` | core-driver/cam_driver/sidecar.py:81 | over every run no more than 20 000 items wait for the disk |
| `Sidecar.RowDroppedExactly` | core-driver/cam_driver/sidecar.py:129-139 | a row is dropped and counted exactly if that many wait, and ignored once a write has failed; else it goes behind the others |
| `Sidecar.WritesUntilStopped` | core-driver/cam_driver/sidecar.py:147-175 | until a write fails or the session is closed the writer takes rows |
| `RecordReplay.ReplayFailsIffRowLost` | core-driver/cam_driver/sources/replay.py:529-541 | replaying every recorded frame fails exactly if the sidecar lost a row |
| `RecordReplay.FrameGetsItsOwnStamp` | core-driver/cam_driver/sources/replay.py:484-487 | an unfailed replay gives frame i the stamp it was recorded with, moved to the cycle |
| `PcapIo.ToNsIsFloor` | core-driver/cam_driver/pcapio.py:109-118 | nanoseconds are exact up to rounding down for every resolution |
| `PcapIo.ToNsMonotone` | core-driver/cam_driver/pcapio.py:109-118 | and keep the order of the ticks |
| `CaptureBytes.Clocks` | core-driver/cam_driver/pcapio.py:109-118 | seconds down to picoseconds, and a clock of 1024 ticks, in numbers |
| `CaptureBytes.ClassicByBytes` | core-driver/cam_driver/pcapio.py:81-88 | a classic file from its bytes: four magic numbers for two byte orders and two resolutions, sixteen bytes that do not matter, the link type |
| `CaptureBytes.RecordByBytes` | core-driver/cam_driver/pcapio.py:90-104 | a record from its bytes: its time, and its length up to 256 MiB; a longer one is a fault, a shorter rest ends the reading |
| `CaptureBytes.ClassicRefused` | core-driver/cam_driver/pcapio.py:66-87 | no classic capture exactly without one of these magic numbers, and a truncated one exactly if its header is cut |
| `CaptureBytes.NgByBytes` | core-driver/cam_driver/pcapio.py:121-200 | a whole pcapng file byte by byte, in either byte order: section, interface with its clock in option 9, packet |
| `CaptureBytes.BlockLengthExactly` | core-driver/cam_driver/pcapio.py:147-167 | a block's length is refused exactly if it is under twelve, over 256 MiB or no multiple of four |
| `CaptureBytes.SectionLengthExactly` | core-driver/cam_driver/pcapio.py:126-146 | that of a section header exactly for the first two, in the byte order it declares |
| `PcapClassic.IterPcap` | core-driver/cam_driver/pcapio.py:81-104 | the cursor loop reads what the recursive reading of the file says |
| `PcapClassic.ReadsBack` | core-driver/cam_driver/pcapio.py:81-104 | any records in either byte order and resolution read back |
| `PcapClassic.CutFileKeepsPrefix` | core-driver/cam_driver/pcapio.py:90-102 | cut anywhere behind the global header: a prefix of the packets, no new fault |
| `PcapNg.IterPcapng` | core-driver/cam_driver/pcapio.py:121-200 | the loop with its cursor, byte order and interfaces reads what the recursive reading says |
| `PcapNg.ScanOptionsLoop` | core-driver/cam_driver/pcapio.py:171-181 | the option loop finds the resolution, or goes wrong |
| `PcapNg.CrashExactly` | core-driver/cam_driver/pcapio.py:173-181 | it goes wrong if and only if the options end on an if_tsresol header with its value missing |
| `PcapNg.CutFileKeepsPrefix` | core-driver/cam_driver/pcapio.py:126-167 | cut anywhere behind the magic: a prefix of the packets, no new fault |
| `PcapNgWrite.ReadsBack` | core-driver/cam_driver/pcapio.py:121-200 | any sections, byte orders, interfaces with any options, clocks, packets and foreign blocks read back as the packets captured |
| `PcapNgWrite.CutOptionCrashes` | core-driver/cam_driver/pcapio.py:179-180 | a file of whole blocks that ends reading without a format error |
| `BosonCrc.RemainderZero` | core-driver/cam_driver/health_boson.py:63-64 | two bytes behind a body leave no remainder exactly if they are its CRC |
| `BosonCrc.BurstDetected` | core-driver/cam_driver/health_boson.py:63-64 | any damage within two neighbouring bytes leaves one |
| `Boson.EscapeBytes` | core-driver/cam_driver/health_boson.py:67-74 | the loop computes the escaped form |
| `Boson.UnescapeBytes` | core-driver/cam_driver/health_boson.py:77-87 | the loop undoes escapes, and refuses a cut one |
| `Boson.UnescapeEscape` | core-driver/cam_driver/health_boson.py:67-87 | escaping loses nothing |
| `Boson.EscapeUnmarked` | core-driver/cam_driver/health_boson.py:67-74 | and leaves no marker inside |
| `Boson.DecodeEncode` | core-driver/cam_driver/health_boson.py:90-107 | every message comes back whole |
| `Boson.AcceptedIffNoRemainder` | core-driver/cam_driver/health_boson.py:96-107 | a body is accepted exactly if it is long enough and leaves no remainder |
| `Boson.DamageIsRefused` | core-driver/cam_driver/health_boson.py:96-107 | a message damaged within two neighbouring bytes before it is escaped, CRC included, is refused |
| `Boson.WireDamageIsRefused` | core-driver/cam_driver/health_boson.py:77-107 | a frame with one damaged byte on the wire, as it is decoded, is refused unless a plain byte became an escape or an escape a plain byte |
| `Boson.EncodeDecode` | core-driver/cam_driver/health_boson.py:90-107 | an accepted frame encodes back to itself if and only if it is on channel 0 and escaped as a sender does |
| `BosonWire.FrameLaidOut` | core-driver/cam_driver/health_boson.py:90-93 | a message on the wire, byte by byte: markers, channel, then sequence number, function and status with the heaviest byte first, payload, CRC |
| `BosonWire.LaidOutReads` | core-driver/cam_driver/health_boson.py:96-107 | and such bytes are read as that message |
| `BosonWire.EscapedAs` | core-driver/cam_driver/health_boson.py:67-74 | what each of the three special bytes becomes between the markers |
| `BosonWire.EscapeAppend` | core-driver/cam_driver/health_boson.py:67-74 | and bytes are escaped one after the other |
| `BosonWire.CheckValue` | core-driver/cam_driver/health_boson.py:63-64 | the CRC of the digits 1 to 9 is 0xE5CC, the check value of CRC-16/AUG-CCITT |
| `BosonSplitter.FrameSplitter.Feed` | core-driver/cam_driver/health_boson.py:116-130 | one call returns the frames in the buffer and keeps the rest |
| `BosonSplitter.FeedTwice` | core-driver/cam_driver/health_boson.py:116-130 | two calls do what one call with both pieces does |
| `BosonSplitter.AnyChunking` | core-driver/cam_driver/health_boson.py:116-130 | any cutting of the stream gives the frames and the buffer of the whole |
| `BosonSplitter.StreamRecovered` | core-driver/cam_driver/health_boson.py:90-130 | any messages, any noise without start markers, any cutting: exactly the frames sent, each decoding to its message |
| `BayerTile.TilingIsLossless` | core-driver/cam_driver/bayer_tile.py:69-96 | for every mosaic, mode and pattern untiling undoes tiling and tiling undoes untiling |
| `BayerTile.TileMoves` | core-driver/cam_driver/bayer_tile.py:69-73 | plain tiling sends pixel (2i+r, 2k+c) to place (i, k) of quadrant (r, c) |
| `BayerTile.BytesAreLossless` | core-driver/cam_driver/bayer_tile.py:69-96 | on bytes: accepted exactly if the dimensions are even and right, then given back bit by bit |
| `BayerTile.TileCfa` | core-driver/cam_driver/bayer_tile.py:69-81 | the array code makes the tiled frame |
| `BayerTile.UntileCfa` | core-driver/cam_driver/bayer_tile.py:84-96 | and the mosaic again |
| `BayerTile.RecodeInPlace` | core-driver/cam_driver/bayer_tile.py:74-80 | quadrant after quadrant in place is the transform of all at once against the untouched reference |
| `BayerColours.TiledPixel` | core-driver/cam_driver/bayer_tile.py:29-81 | every pixel of a tiled frame from the mosaic and the pattern's name: as it is, or less the first green of its cell, centred at 128 and around the end of the range |
| `BayerColours.GreyIsFlat` | core-driver/cam_driver/bayer_tile.py:69-81 | a grey cell leaves 128 wherever differences are stored |
| `Keyframe.HeadersAre` | core-driver/cam_driver/keyframe.py:57-67 | what there is to be found: exactly the bytes behind the start codes |
| `Keyframe.ScanMissesNone` | core-driver/cam_driver/keyframe.py:57-67 | the scan visits the byte after every start code, although it jumps three bytes |
| `Keyframe.UnitsFound` | core-driver/cam_driver/keyframe.py:70-80 | exactly the framed units before the first bad or truncated one are visited |
| `Keyframe.ScanAnnexB` | core-driver/cam_driver/keyframe.py:100-107 | found if and only if a byte behind some start code is a sync point's header |
| `Keyframe.ScanPrefixed` | core-driver/cam_driver/keyframe.py:100-107 | found if and only if some complete unit before the first bad one is a sync point |
| `Keyframe.IsSyncPoint` | core-driver/cam_driver/keyframe.py:83-110 | the answer for every media type and stream format |
| `KeyframeStreams.KeyTypes` | core-driver/cam_driver/keyframe.py:21-24 | a header built from its fields heads a sync point exactly if its type is 5 (H.264) or from 16 to 21 (H.265) |
| `KeyframeStreams.PrefixedFrame` | core-driver/cam_driver/keyframe.py:70-108 | a frame of units behind big-endian lengths of any size is a sync point exactly if one of them has such a type |
| `KeyframeStreams.StartCodeFrame` | core-driver/cam_driver/keyframe.py:57-108 | so is one of units behind start codes, with any zeros before these |
| `Yuv.CheckProtectsExactly` | plugins/ros2-bridge/src/cam_bridge_base.cpp:35-79 | every read of every accepted buffer is in bounds if and only if the dimensions the format halves are even |
| `Yuv.GreyAndMonotone` | plugins/ros2-bridge/src/cam_bridge_base.cpp:24-32 | without colour a pixel is its luma, and more luma is never darker |
| `Yuv.YuvToRgb8` | plugins/ros2-bridge/src/cam_bridge_base.cpp:35-79 | refused exactly by the checks; otherwise every pixel is the conversion of its three samples, or some sample lies outside the buffer, and it says which |
| `YuvLayouts.SamePlanesSamePicture` | plugins/ros2-bridge/src/cam_bridge_base.cpp:59-77 | I420, YV12 and NV12 frames of the same planes convert to the same picture |
| `YuvLayouts.SamePixelsSamePicture` | plugins/ros2-bridge/src/cam_bridge_base.cpp:45-57 | so do YUY2 and UYVY frames of the same pixels |
| `YuvPictures.ColoursAreBt601` | plugins/ros2-bridge/src/cam_bridge_base.cpp:24-32 | every pixel is the full-range BT.601 conversion of its samples to within 1.2 levels, red from V, blue from U, green from both |
| `YuvPictures.FullPicture` | plugins/ros2-bridge/src/cam_bridge_base.cpp:35-79 | an NV24 frame needs exactly the bytes of its three planes and shows them pixel by pixel |
| `YuvPictures.PackedPicture` | plugins/ros2-bridge/src/cam_bridge_base.cpp:45-57 | a YUY2 or UYVY frame needs exactly its bytes and shows each two pixels with the colour they share |
| `Throttle.Limiter.Drop` | plugins/ros2-bridge/src/cam_bridge_base.cpp:221-235 | one decision and the deadline after it |
| `Throttle.WindowBound` | plugins/ros2-bridge/src/cam_bridge_base.cpp:221-235 | in any window of m periods and r more, at most m + 1 publishes, one more if r is not zero: never more than floor(T / period) + 2 |
| `Throttle.WindowBoundIsReached` | plugins/ros2-bridge/src/cam_bridge_base.cpp:221-235 | for every period and window, arrivals that get that many through |
| `Throttle.ConsecutiveClose` | plugins/ros2-bridge/src/cam_bridge_base.cpp:221-235 | consecutive publishes are at most a period and the largest arrival gap apart |

## Left out

- GStreamer, Aravis, GLib and zenoh themselves, configuration, JSON and CSV text, logging, probes, health merging, ROS nodes.
- Reading usbmon records, choosing the stream and its endpoint (`_UsbmonParser.parse`, `probe`, `select_stream`): the extractor is fed parsed URBs of its own stream. An isochronous descriptor table that is itself cut short ends the URB silently and is not modelled.
- The statistics a failed pass reports (most common size, hints in the message): only which of the errors is raised.
- `UvcLoss.LossSafety`: a loss in the middle of a frame that nothing reports is not covered: only FID and size can tell it then, and two frames can be spliced (`UvcLossExact.SilentLossSplices`).
- `UvcBulkSafety.BulkLossSafety`: a piece of the maximal size that was cut out of step and has a header is not covered (one no longer than a frame is a case of `UvcLossExact.RestIsSafeExactly`), nor is a transfer without an end mark that is out of step at its end.
- MJPEG under loss: trimming to the JPEG markers does not notice an interior hole, so loss safety is for raw frames.
- The caps a session sets once and the attestation written by `finish_close`.
- Stops that fall into `configure_recording` or `shutdown`: those are single steps.
- The state file, the sidecar JSON and the settings snapshot are single cells that a write sets or leaves.
- A session whose finalising raises (`_close_session_sync`): it would leave the phase at deactivating.
- `Ownership.MemoryIsHonest`: needs recording enabled, resuming on and every write succeeding, because otherwise nothing is written.
- The frame shown while a playback boots paused has a position in `Replay` that the code does not note.
- `Replay.ReplaySource.StartOver`: a rebuild of the reader that raises is not modelled.
- Readers that are replaced while they still post messages (the generation counter), and quiescing at the end of a window.
- `Pacing.PausesAreNotCaughtUpExactly`: a speed of 0 (no pacing at all) is a case of `Pacing.Pacer.Wait`, not of the runs.
- `Pacing.Pacer.Wait`: times are real numbers, so the rounding of a delay to whole nanoseconds is not modelled; nor are cancelled sleeps.
- Of PlaybackState: speed and loop requests (arguments of the pacing and replay models), the start gate, the descriptor, and how long a reply waits for its restart to be taken.
- `Reconnect.HeldAtTheEndExactly`: a source whose close() raises, or whose stop() raises in shutdown itself, is not modelled.
- Capture statistics behind `PcapFeed.PcapFeeder.PlayPass` are given per frame; the MJPEG drain at the end of the feed is not modelled.
- `Yuv.YuvToRgb8`: what a read outside the buffer does is not modelled, only that it happens; the output is a grid of pixels, not a byte vector.
- `BayerTile.TileCfa`: the frame is a grid; the reshaping of bytes is in `BayerTile.BytesAreLossless`. Pattern and mode names that are not known fall back in the code to rggb and off.
- `Keyframe.IsSyncPoint`: the media type and length size are given; parsing them out of a caps string is left out.
- The thermal percentile stretch, Boson commands and replies above the framing, GigE timestamps.
