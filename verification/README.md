# Event recording core of the video recorder

This project models the event-recording decisions of the video recorder
consumer (`VideoRecorder` in `server/src/consumers/ozVideoRecorder.cpp`):

- the alarm state machine of `processFrame`, with states IDLE, ALARM and ALERT;
- the event numbering and the output file name `<location>/<name>-<n>.<format>`;
- the pre-roll flush of the frame store when an event opens;
- the tail and minimum-duration test that closes an event;
- the age-bounded frame store, which evicts stale frames from its head and then
  appends the current frame;
- the queue drain of `run`, which hands every queued frame to `processFrame`
  in order and then clears the queue.

The recorder is an immutable `Recorder` value. `Recorder.Step` handles one
frame. It returns the acceptance verdict, the new recorder, and a trace of
the actions performed on the collaborators:

- `Begin(n, frame)` and `End(n, frame, duration)` are the event notifications;
- `OpenFile(path)` covers encoder set-up plus opening the file;
- `Encode(frame)` hands one frame to the encoder;
- `CloseFile` covers closing the file plus encoder release.

`RecordingLoop.Drain` is the left fold of `Step` over a queue. `RecordingLoop.RunTick`
is the drain loop itself, proved equal to that fold.

`EventLog` states the lifecycle the trace follows as an automaton:

1. BEGIN of the next event number;
2. the file named after that event opened;
3. encodings only while that file is open;
4. the file closed;
5. END of the same event, with at least the minimum duration;
6. back to step 1.

It proves that every step and every drain follows that lifecycle. From this
it derives three facts: events are numbered 1, 2, 3, …; at most one file is
open at any point; and every encode goes to an open file.

Modelling choices:

- Time is integer microseconds, and every clock read is a parameter. `Step`
  takes one `now`, which stands for both `time64()` (line 71) and the clock
  reads inside `age()` during eviction (lines 134-135). `Drain` takes one
  reading per queued frame.
- A frame's age relative to an instant `t` is `t - timestamp`. It is signed.
- The last alarm time is a per-instance field of the recorder. The source
  declares it as a function-local `static` (line 57), which all instances
  would share.
- The duration test and the END duration are computed on integers:
  `lastAlarmTime - alarmTime >= minTime * 1_000_000`. The source divides in
  floating point (lines 108 and 113).
- The head age, tail age and minimum duration are fields of `Config`, in
  whole seconds. They are `MAX_EVENT_HEAD_AGE`, `MAX_EVENT_TAIL_AGE` and
  `mMinTime` in the source. The header that defines them is not part of this
  model.
- Frames are a closed variant: classifiable (carrying the alarm flag) or not.
  This replaces the `dynamic_cast` checks at lines 55 and 87.

Two consequences of the code worth knowing:

- Eviction happens before the append. It is measured against the current
  clock, not against the newest frame. So the frame just handled is never
  evicted in the same call.
- The minimum-duration gate reads only `lastAlarmTime - alarmTime`, and quiet
  frames move neither value. An ALERT event that is too short therefore does
  not close as quiet time passes. It stays open until another alarm frame
  arrives. `EventLog.QuietKeepsShortEventOpen` proves this.

## Model

| member | source | states |
|---|---|---|
| `Naming.Decimal` | server/src/consumers/ozVideoRecorder.cpp:82 | the event number is written as a non-empty digit string with no leading zero |
| `Naming.ParseDecimalInverse` | server/src/consumers/ozVideoRecorder.cpp:82 | reading the written event number back gives the number |
| `Naming.FileNameInjective` | server/src/consumers/ozVideoRecorder.cpp:82 | two events of one recorder get the same file name if and only if they have the same number |
| `FrameStore.EvictSound` | server/src/consumers/ozVideoRecorder.cpp:131-140 | eviction keeps a suffix of the store; every frame it drops was older than the head age; the new head, if any, is not |
| `FrameStore.EvictUnique` | server/src/consumers/ozVideoRecorder.cpp:131-140 | a store satisfies those three conditions if and only if it is what eviction leaves, so eviction stops at the first frame that is not stale |
| `FrameStore.Insert` | server/src/consumers/ozVideoRecorder.cpp:131-141 | after the update the store is non-empty, ends with the handled frame, and grew by at most one |
| `FrameStore.InsertChronological` | server/src/consumers/ozVideoRecorder.cpp:131-141 | if frames arrive in timestamp order, the store stays in timestamp order |
| `Recorder.FlushEncodesStore` | server/src/consumers/ozVideoRecorder.cpp:85-94 | the pre-roll flush only encodes, one encode per classifiable stored frame, oldest first, skipping any other frame; over a store of classifiable frames it encodes every stored frame and drops none |
| `Recorder.Step` | server/src/consumers/ozVideoRecorder.cpp:53-143 | a frame is accepted exactly when it is classifiable; a rejected frame changes nothing and does nothing; after an accepted frame the store ends with it; the event count grows by at most one |
| `Recorder.StepKeepsValid` | server/src/consumers/ozVideoRecorder.cpp:59-141 | the store only ever holds frames the recorder accepted |
| `Recorder.StepAlarmed` | server/src/consumers/ozVideoRecorder.cpp:66-96 | an alarm frame leaves ALARM with last alarm time `now`; from IDLE it opens event count+1 with onset `now`: BEGIN, the event file, the pre-roll store oldest first (before this call's eviction), then the frame itself; from ALARM or ALERT only the frame is encoded and the event is unchanged |
| `Recorder.StepUnalarmed` | server/src/consumers/ozVideoRecorder.cpp:97-127 | a quiet frame keeps IDLE with no action; it closes an open event exactly when the tail has elapsed since the last alarm and the event lasted the minimum duration, emitting close and END with duration last alarm minus onset; otherwise the event is left in ALERT and only the frame is encoded; the closing may follow ALARM→ALERT in the same call |
| `Recorder.CloseIgnoresClosingFrame` | server/src/consumers/ozVideoRecorder.cpp:102-117 | once the tail has elapsed, whether the event closes depends only on the alarm times, and so does the reported duration, not the closing frame or the clock |
| `Recorder.StepEncodesIffOpen` | server/src/consumers/ozVideoRecorder.cpp:124-127 | the frame is encoded, as the last action of the step, if and only if an event is open after the transition; the frame that closes an event is not encoded |
| `Recorder.StepStore` | server/src/consumers/ozVideoRecorder.cpp:129-141 | an accepted frame leaves the old store minus its stale head, followed by the frame; a rejected frame leaves the store alone |
| `RecordingLoop.RunTick` | server/src/consumers/ozVideoRecorder.cpp:24-38 | the drain loop hands every queued frame to the state machine once, in queue order, ends with the fold of the step over the queue, and leaves the queue empty |
| `RecordingLoop.DrainSplit` | server/src/consumers/ozVideoRecorder.cpp:26-35 | draining a queue in two ticks is the same as draining it in one |
| `RecordingLoop.DrainStore` | server/src/consumers/ozVideoRecorder.cpp:129-141 | after a drain the store is a suffix of the old store followed by the accepted queued frames, so frames leave only from the head, in order, and never come back |
| `RecordingLoop.DrainKeepsValid` | server/src/consumers/ozVideoRecorder.cpp:24-38 | a whole drain, over any queue and clock readings, leaves a store holding only frames the recorder accepted, so the pre-roll flush drops none of them |
| `EventLog.StepFollowsLifecycle` | server/src/consumers/ozVideoRecorder.cpp:62-127 | every step's actions lead from the recorder's lifecycle phase before it to its phase after it |
| `EventLog.DrainFollowsLifecycle` | server/src/consumers/ozVideoRecorder.cpp:26-35 | the actions of a whole drain come in lifecycle order |
| `EventLog.ReplayNumbersEvents` | server/src/consumers/ozVideoRecorder.cpp:74-79 | along any trace in lifecycle order, BEGIN carries the consecutive numbers after the latest one used |
| `EventLog.DrainNumbersEvents` | server/src/consumers/ozVideoRecorder.cpp:74-79 | the BEGIN notifications of a drain carry exactly the numbers following the recorder's event count, in order, so events are numbered 1, 2, 3, … |
| `EventLog.ReplayBalancesFiles` | server/src/consumers/ozVideoRecorder.cpp:83-115 | along a trace in lifecycle order, opens and closes account exactly for the change in whether a file is open |
| `EventLog.DrainOpensOneFileAtATime` | server/src/consumers/ozVideoRecorder.cpp:83-115 | at every point of a drain, counting a file already open before it, the files opened minus the files closed is 0 or 1 |
| `EventLog.DrainEncodesOnlyIntoOpenFile` | server/src/consumers/ozVideoRecorder.cpp:85-127 | every encode of a drain happens while the event's file is open |
| `EventLog.StepBracketsEvents` | server/src/consumers/ozVideoRecorder.cpp:74-115 | a step emits BEGIN and opens a file exactly when it leaves IDLE, and closes the file and emits END exactly when it enters IDLE, each at most once |
| `EventLog.QuietKeepsShortEventOpen` | server/src/consumers/ozVideoRecorder.cpp:102-117 | an ALERT event shorter than the minimum duration stays open through any run of frames without an alarm, with no close and no END |
| `Scenarios.AlarmOpensFirstEvent` | server/src/consumers/ozVideoRecorder.cpp:66-84 | alarm frames at 0, 1 and 2 s open event 1 with file `/events/cam-1.mp4` and leave ALARM with onset 0 and last alarm at 2 s |
| `Scenarios.QuietClosesFirstEvent` | server/src/consumers/ozVideoRecorder.cpp:97-117 | with a 4 s tail and a 1 s minimum, the quiet frame at 6 s leaves the event open and the frame at 7 s closes it, reporting 2 s |

## Left out

- Encoder set-up and teardown (`initEncoder`, `deinitEncoder`, lines 145-326) are not modelled. They are libav format, codec and scaler calls whose behaviour is not visible here. They are folded into the `OpenFile` and `CloseFile` actions.
- The internals of `openVideoFile`, `closeVideoFile` and `encodeFrame` (lines 328-494) are not modelled. These are file I/O, packet writing and pixel conversion. Each call appears only as a trace action.
- The `Fatal` paths of those functions are not modelled. They abort the process.
- The notification objects are reduced to the event number, the frame id and the duration. Their distribution to other consumers is the action itself.
- The queue mutex, `usleep`, `waitForProviders`, `checkProviders`, the `mStop` flag and the final cleanup in `run` (lines 16-43) are not modelled. They concern threading and provider liveness. Only the sequential drain of one tick is modelled. A producer cannot append during the drain, because the drain runs under the queue lock.
- Debug, info and error logging is not modelled. This includes the log line for an unexpected frame type during the flush; that frame is still skipped.
- The END duration is integer microseconds. The source sends seconds as a `double`, computed by floating-point division.
- The age tests compare integer microseconds. The source compares an age in seconds, held in a `double`, against whole-second constants. The two agree except for floating-point rounding.
- One clock reading stands for all clock reads in one `processFrame` call. The source reads the clock at line 71 and again for each `age()` in the eviction loop.
- Integer widths are not modelled. This covers 64-bit timestamps, the unsigned-to-signed conversion in a frame's age, and overflow of the event counter. The model's integers are unbounded; the source's values would need centuries to overflow.
- The initial recorder (IDLE, event count 0, zero alarm times, empty store) is an assumption. The constructor and the header that define these values are not part of this model.
- `Frame::age` is not part of this model. It is modelled as the reference instant minus the frame's timestamp, with a negative result when the frame is newer.
- `RecordingLoop.RunTick` discards each frame's acceptance verdict, as `run` does at line 31.
