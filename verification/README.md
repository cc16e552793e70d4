# Mirrorscope: verified model of record, replay and task decoding

Mirrorscope records a Linux process (all its threads, serialised on one core),
replays the recording under a debugger that can step backwards, and decodes the
async tasks of a stopped Rust process into a tree. This project models five of
its parts in Dafny and proves, for every input, run or reachable state, what
they promise.

* **Recorder scheduler and schedule-enforcing replay** (`Scheduler`,
  `SchedulerProperties`, `RecorderOutcome`, `Recording`, `TidMapping`, `MtReplay`, `MtReplayer`,
  `Conformance`, `Simulation`, `Completion`, `Conservation`, `LoggedOnce`, `ReplayMap`, `SoloReplay`). A thread of the
  target is a script of the stops it reports; a thread it spawns is part of that
  script. `Recording.Enabled` and `Recording.Grammar` spell out what the kernel
  may do: recordable stops come from the resumed thread, entry and exit
  stops alternate, signals stop a thread only outside that pair, a child's first
  stop may come before or after its parent's spawn stop, and new ids are not in use.
  Ids may be reused after an exit. The main result, `Simulation.RecordReplay`, says
  exactly which logs such a recording can produce replay follows without
  divergence, resuming the live twin of the recorded thread at every record;
  `Completion.ReplayFinishesExactly` says when that replay finishes and how.
  `SoloReplay.SoloRecordReplay` is the counterpart for processes that never spawn.
  `Conformance` looks at any log and any target instead: what each record demands of the
  thread it names, what consuming it does, and which record a drive reports.
* **Checkpointed replay session and debugger cursor** (`CheckpointSelect`,
  `Session`, `SessionConformance`, `Transparency`, `Derailment`, `Trajectory`, `Density`,
  `ReplaySession`, `Backend`, `Landing`, `FalseStop`). The tracee is a deterministic machine and a fork snapshot is an
  equal state. Checkpoints are a cache: no error-free history of calls can tell
  them from replaying from the start. The state a failed call leaves is modelled
  too: every session, whatever fails, stays on one trajectory, which decides exactly
  what later stops can be trusted and spaces the checkpoints.
* **Trace log codec** (`TraceFormat`, `TraceLog`, `TraceWire`, `TraceRoundTrip`, `Payload`,
  `PayloadWire`, `EndToEnd`). Bytes in, bytes out, with versions, framing, sequence check and
  poisoning. `TraceWire` and `PayloadWire` give the format byte by byte. `EndToEnd` joins the codec to the record/replay theorem.
* **Async task decoding** (`TaskTree`, `Forest`, `AwaitStack`, `AwaitChain`, `FanOutWalk`,
  `DecodeTasks`, `TaskContents`, `FanOutFamily`, `OwnedTasks`, `OwnedMemory`, `LiveRoots`).
  Tree building and pre-order over any node list, await stacks, fan-out expansion, and the
  walk of the runtime's intrusive task lists over arbitrary memory. `AwaitChain`,
  `TaskContents`, `FanOutFamily` and `OwnedMemory` say what the results mean in terms of
  memory words and layouts alone.
* **Injection** (`Injection`). Which memory the recorder captures and where the
  replayer writes it.

Code that updates state in place is modelled by classes and loops (`Scheduler`,
`Replayer`, `TidTable`, `LiveSession`, `ReplayBackend`, `TraceWriter`,
`TraceReader`, and the methods of the decoder). Each is proved equal to a
function on values, and the theorems are about those functions.

Where the code disagrees with what one would expect of it, the model follows the
code, a failing input is given, and the exact condition is proved:

* A sibling killed while stopped is logged under its own tid, which replay
  rejects (`ReplayMap.SiblingKilledIsRejected`). A log's tags follow its schedule
  exactly when every logged stop came from the thread resumed last
  (`SchedulerProperties.TagsFollowExactly`), and of what a replay from launch
  consumed that holds exactly when the first record is the leader's
  (`ReplayMap.ReplayableOnlyIfScheduled`).
* A thread's exit is logged only when a second thread has been seen. A leader that
  forks and exits before that leaves a multi-threaded log without its exit, and
  replay runs out of records (`Completion.UnseenChildIsAbandoned`). Replay
  finishes exactly when the leader's exit is in the log
  (`Completion.ReplayFinishesExactly`).
* The recorder takes a `SIGSTOP` the target sends itself for a preemption and neither logs
  nor forwards it. Replay diverges at that thread's next record
  (`Completion.StopThenRecordDiverges`), and only then
  (`Simulation.RecordReplay`).
* The single-tracee replay driver does not trace execs, although the recorder
  does, so it hands a process that execs a `SIGTRAP` the recording never
  delivered; likewise a `SIGSTOP` the recorder swallowed. Its replay is faithful
  exactly when the process makes neither stop (`SoloReplay.SoloRecordReplay`).
* After a failed request the debugger goes on serving from wherever the failure left
  the session, so that a later stop may be reported at an event the replay cannot
  reach (`FalseStop.FailedStepsMislead`). A stop is a fresh replay's exactly when
  its run started from a state of the fresh replay (`Backend.TimeTravel`); stops at events
  before the seq of the first failure always are, stops after it never
  (`Backend.TrustedStops`). Stepping forward and back returns to where it
  started exactly when that was the first state with its seq
  (`Backend.StepThereAndBack`); `FalseStop.ThereIsNotBack` is a history where it does not.
* An event whose kind is an unknown one numbered 1 to 10, or whose body is over the
  limit, is written without complaint and not read back as written
  (`TraceRoundTrip.RecordExact`); so is a command line whose encoding
  overflows the 16-bit header length (`TraceRoundTrip.CmdlineKeptExactly`).
* A finished coroutine whose layout still records an awaitee has a leaf that its
  stack does not show (`AwaitStack.StackLeafExact`).
* Explicit roots may be given in any order; the tree's pre-order is the walk order
  exactly when their ids ascend, and there is a tree exactly when they are
  distinct (`DecodeTasks.Decode`).
* A checkpoint at the largest 64-bit seq would be due again at once
  (`CheckpointSelect.SaturationOnlyAtTheTop`).

Verify with `dafny verify dfyconfig.toml`.

## Model

| member | source | states |
|---|---|---|
| `Injection.InjectionRebuildsMemory` | crates/recorder/src/capture/syscall.rs:38-76 | Exactly syscalls 0, 17, 45, 228 and 318 are injected; the bytes injected cover exactly the addresses the kernel writes for that number, arguments and result, given literally; and a replayed memory that agrees with the recorded one outside them agrees everywhere afterwards. |
| `Scheduling.Scheduler.constructor` | crates/recorder/src/capture/sched.rs:115-137 | A new scheduler tracks the leader alone, queued, counted as already scheduled. |
| `Scheduling.Scheduler.ResumeNextThread` | crates/recorder/src/capture/sched.rs:193-205 | The head of the ready queue becomes the running thread, with a switch record only when it differs from the last scheduled one, and is handed its waiting signal exactly once. |
| `Scheduling.Scheduler.HandleSyscall` | crates/recorder/src/capture/sched.rs:255-276 | Entry and exit stops alternate per thread; an exit record pairs the stored entry with the captured bytes. |
| `Scheduling.Scheduler.HandleStopped` | crates/recorder/src/capture/sched.rs:297-321 | A first stop registers a child; a later signal other than SIGSTOP is logged and kept for the next resume; the thread is queued again. |
| `Scheduling.Scheduler.HandleExit` | crates/recorder/src/capture/sched.rs:323-352 | A dead thread leaves every table, is logged when more than one was followed, and releases its vfork parent. |
| `Scheduling.Scheduler.HandleStatus` | crates/recorder/src/capture/sched.rs:225-253 | Every reported status is dispatched to its handler; spawn stops are logged and a vfork parent is not requeued. |
| `Scheduling.Scheduler.DropFromReady` | crates/recorder/src/capture/sched.rs:323-352 | Retaining element by element leaves the queue without the dead thread and otherwise in order. |
| `Scheduling.Scheduler.Run` | crates/recorder/src/capture/sched.rs:152-188 | The loop computes the run function of the reported stops and ends when no thread is left. |
| `SchedulerProperties.HandleKeepsPlace` | crates/recorder/src/capture/sched.rs:225-253 | No handled stop but its own exit removes a queued thread or lets another overtake it. |
| `SchedulerProperties.BoundedWaiting` | crates/recorder/src/capture/sched.rs:193-205 | A thread at queue position k is among the next k+1 resumed threads unless it exits, for every sequence of stops. |
| `SchedulerProperties.RunLogs` | crates/recorder/src/capture/sched.rs:364-378 | What a run appends to its log is, turn by turn, the switch record and the record of the handled stop. |
| `SchedulerProperties.SoloRunStaysSingleThreaded` | crates/recorder/src/capture/sched.rs:364-378 | A run in which only the leader reports and nothing is spawned never logs a lifecycle record. |
| `SchedulerProperties.SoloRecorderRun` | crates/recorder/src/capture/sched.rs:115-188 | A recorder run from its start in which only the leader reports and nothing is spawned logs no lifecycle record. |
| `SchedulerProperties.SpawnSelectsSchedule` | crates/replay/src/schedule.rs:27-34 | Any run that handles a spawn yields a log classified as multi-threaded. |
| `SchedulerProperties.TagsFollowExactly` | crates/recorder/src/capture/sched.rs:364-378 | Over every run the tags of the log follow its switch records if and only if each logged stop came from the thread scheduled last. |
| `RecorderOutcome.RunTells` | crates/recorder/src/capture/sched.rs:152-188 | A recording handles stops exactly as long as some thread is tracked; it then tracks exactly the threads that have shown up and not died since, reports the code of the leader's last death, and has counted every thread it took up. |
| `RecorderOutcome.AliveStep` | crates/recorder/src/capture/sched.rs:297-352 | A thread is tracked after one more stop exactly if that stop shows it, or it was tracked and the stop is not its death. |
| `Recording.InvReachable` | crates/recorder/src/capture/sched.rs:152-252 | In every reachable state of a recording: identities, queue placement, vfork suspension and births, and each thread's pending syscall and waiting signal agree with its script. |
| `Recording.NoStrandedThread` | crates/recorder/src/capture/sched.rs:297-396 | Each tracked thread is exactly one of running, queued once, or vfork-suspended; if nothing runs or waits while threads remain, some vfork child's first stop is outstanding; a live thread that is not tracked has made none of its stops, so a recording that is over has followed every thread to its death but those never seen. |
| `TidMapping.TidMap.Bind` | crates/replay/src/schedule.rs:77-99 | Binding succeeds exactly when neither id is bound elsewhere (or the pair is already bound) and keeps the two halves inverse. |
| `TidMapping.TidMap.Unbind` | crates/replay/src/schedule.rs:108-112 | Unbinding removes the pair from both halves and keeps them inverse. |
| `TidMapping.TidTable.Bind` | crates/replay/src/schedule.rs:77-99 | The in-place table follows the value-level bind and is unchanged on error. |
| `TidMapping.TidTable.Unbind` | crates/replay/src/schedule.rs:108-112 | The in-place table follows the value-level unbind. |
| `MtReplayer.Replayer.AttendTo` | crates/replay/src/mt.rs:419-461 | The tid check and the leader binding: rejects a tag other than the expected one, binds the leader on the first concrete record only, and otherwise resolves through the table. |
| `MtReplayer.Replayer.StepLive` | crates/replay/src/mt.rs:392-413 | Stepping a thread resumes that thread alone, past exec stops, to its next stop. |
| `MtReplayer.Replayer.SyscallEntered` | crates/replay/src/mt.rs:201-238 | An entry record must meet the same syscall at the directed thread; an injectable one is suppressed and its address kept. |
| `MtReplayer.Replayer.SyscallExited` | crates/replay/src/mt.rs:240-269 | An exit record feeds its bytes and return value to a suppressed syscall at the kept address, and leaves a real one alone. |
| `MtReplayer.Replayer.ThreadSpawned` | crates/replay/src/mt.rs:271-332 | A spawn record binds the child tid to the new live pid and tracks it. |
| `MtReplayer.Replayer.ThreadExited` | crates/replay/src/mt.rs:335-356 | An exit record removes the thread from table and set; the leader's ends the replay with its outcome. |
| `MtReplayer.Replayer.SignalDelivered` | crates/replay/src/mt.rs:358-386 | A signal record must meet the same signal, which is kept for that thread's next resume. |
| `MtReplayer.Replayer.DriveTo` | crates/replay/src/mt.rs:144-179 | The drive loop computes the drive function: stop at the target seq, finish, or report the first divergence; the state it leaves is given in every case, as it is for each handler. |
| `Conformance.ConsumesWhatFits` | crates/replay/src/mt.rs:201-386 | Once its tid resolves, a record is consumed exactly when the directed process's next stop, past execs, fits it: that syscall number, that signal, a spawn, a death, with an entry pending for an exit and free ids for a birth. It is a divergence at that seq exactly when an entry meets a syscall with another number. Everything a consumed record changes is spelt out: processes, tracked threads, table, schedule, progress. |
| `Conformance.PassesOver` | crates/replay/src/mt.rs:144-199 | A switch names the next thread and a checkpoint mark is passed over; neither resumes a thread. |
| `Conformance.MisfitLeaves` | crates/replay/src/mt.rs:201-413 | A record that does not fit is not consumed, but its thread has moved to the stop and was handed its waiting signal. |
| `Conformance.ConsumeDecides` | crates/replay/src/mt.rs:144-461 | For every state and record: consumed exactly when acceptable, and otherwise the error names what is wrong: an unknown kind, a missing or endless thread, another syscall number, or the schedule. |
| `Conformance.DriveConforms` | crates/replay/src/mt.rs:144-179 | A drive from launch of any log against any scripts takes acceptable records only, and ends at its target, with the leader, at the end of the log, or with the first record that is not acceptable, which it reports. |
| `Simulation.MatchedTurn` | crates/recorder/src/capture/sched.rs:152-252 | One scheduler turn and the consumption of the records it adds keep recorder and replayer matched. |
| `Simulation.MatchedRun` | crates/recorder/src/capture/sched.rs:152-252 | Over whole runs: replay takes all records a run adds, or fails exactly at the first record a thread makes after a `SIGSTOP` of its own, everything before it consumed and directed as recorded; its outcome is the leader's exit if that is logged. |
| `Simulation.DriveFollowsFeed` | crates/replay/src/mt.rs:144-179 | The drive loop over any log stops where asked, finishes, fails where consuming the records one by one fails, or runs out of records, and reports nothing else. |
| `Simulation.RecordReplay` | crates/replay/src/mt.rs:144-461 | For every recording under the kernel hypotheses, replaying its log meets no divergence and no unexpected record if and only if, up to the leader's logged exit, no thread reports a `SIGSTOP` of its own and then makes a further record; replay then consumes the log in order, each record resumes exactly the live twin of the thread that made it, and it ends with the leader's logged exit and outcome, or with the log. Otherwise it fails with the seq of the first such record, all before it consumed and directed as recorded. |
| `Completion.ReplayFinishesExactly` | crates/recorder/src/capture/sched.rs:323-352 | Replay finishes exactly when the leader's exit is in the log, with the outcome of the leader's last stop; of a recording that is over, exactly when more than one thread was seen; otherwise it runs out of records. |
| `Completion.UnseenChildIsAbandoned` | crates/recorder/src/capture/sched.rs:323-334 | A leader that forks and exits before its child is seen: the recording is over with the child abandoned, the log is multi-threaded without the leader's exit, and replay runs out of records. |
| `Completion.StopThenRecordDiverges` | crates/recorder/src/capture/sched.rs:297-321 | A leader that clones, stops itself with `SIGSTOP` and makes a syscall yields a multi-threaded log that replay diverges on at that syscall. |
| `Conservation.ResultsAndSignalsConserved` | crates/replay/src/mt.rs:201-269 | For every interleaving, a thread's k-th suppressed syscall gets the value and bytes of that thread's k-th recorded result at the captured address, real syscalls get nothing, and its signals are forwarded once each, in order. |
| `Conservation.ScriptedReachable` | crates/recorder/src/capture/sched.rs:255-321 | In every reachable recorder state, a thread's pending syscall, captured results and raised signals are those of the stops it has reported. |
| `LoggedOnce.LoggedExactlyOnce` | crates/recorder/src/capture/sched.rs:255-321 | In every reachable recording, a live thread's syscall and signal records in the whole log are those of the stops it has reported, each once and in order, and they tell exactly the results captured from it and the signals it was stopped with. |
| `LoggedOnce.LogTells` | crates/recorder/src/capture/syscall.rs:38-61 | The injected results and the signals of a thread can be read off its records alone. |
| `ReplayMap.ConsumeKeepsMap` | crates/replay/src/mt.rs:315-356 | Every consumed record keeps the two halves inverse and the live image equal to the tracked thread set. |
| `ReplayMap.MapOkAlways` | crates/replay/src/mt.rs:445-468 | From launch on and on any log, the table invariant holds, tid reuse included, so the leader-binding branch is open exactly until the first record that resumes a thread. |
| `ReplayMap.AcceptedTagsFollow` | crates/replay/src/mt.rs:419-441 | Whatever replay consumes, up to the record that finishes it, has tags that follow its switch records; unfinished, it has consumed everything. |
| `ReplayMap.ReplayableOnlyIfScheduled` | crates/replay/src/mt.rs:419-461 | Of any recording replayed from launch, the stops whose records were consumed all came from the thread scheduled last if and only if the first record is the leader's or a switch. |
| `ReplayMap.StrayLeaderIsAdopted` | crates/replay/src/mt.rs:445-461 | A stray thread whose record comes first is bound as the leader and replayed without complaint. |
| `ReplayMap.SiblingKilledIsRejected` | crates/recorder/src/capture/sched.rs:323-352 | A sibling killed while stopped yields a log that every replay rejects. |
| `SoloReplay.SoloLogged` | crates/recorder/src/capture/sched.rs:255-321 | However often a lone process is preempted, its log is a function of its own stops. |
| `SoloReplay.SoloRecordReplay` | crates/replay/src/session.rs:293-330 | A process that never spawns, followed to its death or not, has a log without lifecycle records, and the single-tracee driver gets through it having consumed every record and served exactly the recorded results and signals, with the same outcome, if and only if the process made no exec and no `SIGSTOP` stop. |
| `SoloReplay.SoloRecording` | crates/recorder/src/capture/sched.rs:364-378 | A recording whose log has no lifecycle record logged the leader's first stops, all of them if it is over; the same condition decides its replay. |
| `SoloReplay.PathCounts` | crates/replay/src/checkpoint.rs:42-50 | Over any records at all, the driver forwards one signal per signal stop, `SIGSTOP` included, and one more per exec, which it does not trace. |
| `CheckpointSelect.NearestAtOrBefore` | crates/replay/src/checkpoint_select.rs:33-44 | The last index whose seq is at or before the target, none exactly when all are after it. |
| `CheckpointSelect.NearestIsClosest` | crates/replay/src/checkpoint_select.rs:33-44 | Among ascending seqs the chosen one is the greatest not past the target. |
| `CheckpointSelect.SaturationOnlyAtTheTop` | crates/replay/src/checkpoint_select.rs:20-29 | Below the largest 64-bit seq saturation never changes the answer; at it a repeated checkpoint is due. |
| `SessionConformance.EntryConforms` | crates/replay/src/session.rs:440-466 | At an entry stop the next record past checkpoint marks must be an entry with the live number; then the cursor is past it and one of the five captured syscalls is suppressed. Otherwise the error tells which: another number, another record, or none. |
| `SessionConformance.ExitConforms` | crates/replay/src/session.rs:468-486 | At an exit stop the next record must be an exit; a suppressed syscall is fed its bytes and value. |
| `SessionConformance.SignalConforms` | crates/replay/src/session.rs:488-508 | A signal stop takes a recorded signal if it is the same one, fails if it is another, and is forwarded anyway if the next record is no signal. |
| `SessionConformance.OtherStopConforms` | crates/replay/src/session.rs:309-327 | Deaths end the replay with their outcome, any other stop changes nothing but the tracee. |
| `SessionConformance.MisfitLeavesSeat` | crates/replay/src/session.rs:309-327 | The seat a failing turn leaves: the tracee has moved, a syscall stop has used up the record and the pending entry, a signal leaves the record ahead. |
| `SessionConformance.RestoresNearest` | crates/replay/src/session.rs:182-203 | Restoring goes to the latest checkpoint at or before the target, or to the entry if there is none. |
| `SessionConformance.RunsFromNearest` | crates/replay/src/session.rs:168-177 | A run starts where it stands exactly when that is at or before its target and no checkpoint lies between; otherwise it restores, so that it never re-executes more than needed. |
| `SessionConformance.CallsMean` | crates/replay/src/session.rs:151-213 | What every call that returns has done: drives take turns up to the first seat that is finished or at the target, a restore re-seats, and only setting the interval changes it. |
| `SessionConformance.DriveFails` | crates/replay/src/session.rs:293-330 | A failing drive has taken turns, none of them to a stop, up to a seat whose next turn fails; it reports that turn's error and leaves the seat that turn leaves. |
| `Transparency.HistoryOk` | crates/replay/src/session.rs:168-213 | After any error-free history of calls the session sits on the fresh replay's path, and so does every checkpoint. |
| `Transparency.RestoreOk` | crates/replay/src/session.rs:369-407 | Restoring a checkpoint or respawning puts the session on a state the fresh replay passes through. |
| `Transparency.CheckpointsAreTransparent` | crates/replay/src/session.rs:168-203 | After any error-free history a `run_to` that stops at its target leaves tracee, cursor, current seq, pending syscall, waiting signal and registers as a fresh session driven straight there. |
| `Density.CheckpointDensity` | crates/replay/src/session.rs:335-364 | With a constant positive interval, after any history of calls, failed ones included, checkpoints are ascending, at least the interval apart and never at seq 0, and every clean exit boundary reached at or past the interval has one less than an interval behind it. |
| `Density.MultithreadedNeverCheckpoints` | crates/replay/src/session.rs:342-344 | A multi-threaded session never holds a checkpoint, after any history of calls, failed ones included. |
| `Derailment.DriveStands` | crates/replay/src/session.rs:293-407 | Every call that returns, with an outcome or a failure, leaves the session on the fresh replay's path or at or past the seq where that replay fails, and every checkpoint on the path or past that seq. |
| `Derailment.StopIsFresh` | crates/replay/src/session.rs:168-177 | A run that stops at its target leaves the state of a fresh replay driven there if and only if it started from a state of the fresh replay's path. |
| `Derailment.WallDecides` | crates/replay/src/checkpoint_select.rs:50-55 | Targets before the seq at which the fresh replay fails are always reached faithfully, targets after it never, and that seq itself exactly by a restart or from a state where a fresh replay stops. |
| `Derailment.FirstFailureIsTheWall` | crates/replay/src/session.rs:440-508 | The first failing call leaves the session's current seq at the seq where the fresh replay fails. |
| `Trajectory.HistoryTracked` | crates/replay/src/session.rs:293-407 | After any history of calls, failed or interrupted ones included, the session is on the one deterministic trajectory and each checkpoint is the first state on it with its seq. |
| `Trajectory.StopLands` | crates/replay/src/session.rs:168-177 | A run that stops lands on the first state of the trajectory at or past its target, unless it returned at once, and then it stays where it is. |
| `Trajectory.StopIsFirst` | crates/replay/src/checkpoint_select.rs:50-55 | A stop is on the first state with its seq if and only if the run moved or restarted, or stood on the first one already. |
| `ReplaySession.LiveSession.Drive` | crates/replay/src/session.rs:293-330 | The loop over stops computes the drive function, checkpoints included, and on failure leaves the seat the failing turn leaves. |
| `ReplaySession.LiveSession.TakeCheckpoint` | crates/replay/src/session.rs:335-364 | A snapshot is pushed exactly when no syscall is pending, a seq is known and one is due. |
| `ReplaySession.LiveSession.Restore` | crates/replay/src/session.rs:182-187 | The session is re-seated at the nearest checkpoint or at entry, keeping its checkpoints. |
| `ReplaySession.LiveSession.Run` | crates/replay/src/session.rs:168-177 | `run_to` restarts when that is needed or closer, then drives; its end state is given on success and failure. |
| `Backend.Answering` | crates/dap/src/replay_backend.rs:247-274 | Every answered request leaves the event index in range. |
| `Backend.AnswerEnds` | crates/dap/src/server.rs:189-207 | Every request, answered or failed, leaves the event index in range; a failed one moves the session but not the cursor. |
| `Backend.HistoryStands` | crates/dap/src/server.rs:236-247 | After any history of requests, failed ones included, the session and its checkpoints are on the fresh replay's path or past the point where it fails. |
| `Backend.EventAtOrBefore` | crates/dap/src/replay_backend.rs:302-317 | The jump lands on the last event at or before the reached seq, or on the first. |
| `Backend.EventsAreExits` | crates/dap/src/replay_backend.rs:333-348 | The events are exactly the recorded syscall exits, in order. |
| `Backend.AnswersMoveCursor` | crates/dap/src/replay_backend.rs:112-146 | Where every answered request leaves the cursor: first event, previous, next, past the last one when it runs out, the last event at or before the reached seq for a jump; and the exit code it reports, 128 plus the signal for a kill. |
| `Backend.EndThenStepBack` | crates/dap/src/replay_backend.rs:142-146 | After any history, a request that runs to the end followed by a step back that stops leaves the cursor at the last event, and the session at that event. |
| `Backend.TimeTravel` | crates/dap/src/replay_backend.rs:112-146 | After any history, failed requests included, a launch, step or reverse request that reports a stop leaves the session exactly where a fresh replay is at the event under the cursor if and only if the run started from a state of the fresh replay. |
| `Backend.TrustedStops` | crates/dap/src/replay_backend.rs:112-117 | Stops at events before the seq where the replay fails are a fresh replay's after any history, stops after it never, and at it exactly those reached by a restart or from a fresh replay's state. |
| `Backend.FirstFailureShowsWall` | crates/dap/src/replay_backend.rs:112-117 | After the first failed request the session's current seq is the seq where the fresh replay fails. |
| `Backend.UnfailedTimeTravel` | crates/dap/src/replay_backend.rs:112-146 | While no request has failed, every such stop is exactly where a fresh replay is at the event under the cursor. |
| `FalseStop.FailedStepsMislead` | crates/dap/src/replay_backend.rs:112-117 | Three recorded syscalls of which the second diverges: launch stops, two steps fail, the third reports a stop at an event no fresh replay reaches. |
| `FalseStop.ThereIsNotBack` | crates/dap/src/replay_backend.rs:247-274 | After failed steps, a step back returns at once and reports a stop at the first event, from which a step forward and one back end in another state. |
| `Backend.NextThenStepBack` | crates/dap/src/replay_backend.rs:247-274 | From any session on the trajectory, stepping forward and back ends at the first state at or past the event, so it returns to where it was if and only if it was there; always from a fresh replay's state. |
| `Backend.StepThereAndBack` | crates/dap/src/replay_backend.rs:247-274 | After any history of requests, failed ones included, stepping forward and back from a reported stop returns to that state if and only if it is the first on the trajectory with its seq, which it is unless the request returned at once from a later one. |
| `Backend.ServedDensity` | crates/dap/src/replay_backend.rs:97-108 | Checkpoint spacing and coverage over every history of debugger requests, failed ones included. |
| `Backend.ServedWithoutCheckpoints` | crates/dap/src/replay_backend.rs:276-287 | On a multi-threaded recording the checkpoint list is empty after any history of requests. |
| `Backend.HistoryIsCalls` | crates/dap/src/replay_backend.rs:247-317 | Each request makes one call on the session, and a history of requests leaves the session where those calls do. |
| `Backend.FuelDoesNotMatter` | crates/replay/src/session.rs:293-330 | Two drives that return from the same seat return the same. |
| `Backend.ReplayBackend.Serve` | crates/dap/src/replay_backend.rs:247-274 | The object answers each request as the cursor function does, and on failure is left as that function says. |
| `Backend.ReplayBackend.Jump` | crates/dap/src/replay_backend.rs:302-317 | A jump re-derives the cursor from the reached seq. |
| `Backend.ReplayBackend.GoTo` | crates/dap/src/replay_backend.rs:112-117 | The session runs to the event's seq and the cursor moves only on success. |
| `Backend.ReplayBackend.RunToEnd` | crates/dap/src/replay_backend.rs:142-146 | The session runs out and the cursor moves past the last event. |
| `Landing.LandsOnEvent` | crates/dap/src/replay_backend.rs:112-117 | At the cursor's event the session's current seq is that event's seq, not merely past it. |
| `TraceFormat.CmdlineRoundTrip` | crates/recorder/src/trace/format.rs:57-100 | Decoding an encoded command line followed by any reserved bytes gives it back. |
| `TraceFormat.DecodeCmdlineBytes` | crates/recorder/src/trace/format.rs:69-100 | The cursor loop computes the decoder. |
| `TraceFormat.DecodedFits` | crates/recorder/src/trace/format.rs:69-100 | Whatever decodes was no larger than its bytes. |
| `TraceFormat.KindRoundTrip` | crates/recorder/src/trace/format.rs:201-235 | A kind survives its wire number exactly when it is not an unknown kind numbered 1 to 10. |
| `TraceFormat.BodyRoundTrip` | crates/recorder/src/trace/format.rs:240-274 | A body decodes to the event with an absent tid read as 0, exactly for kinds that survive their number. |
| `TraceLog.TraceWriter.constructor` | crates/recorder/src/trace/writer.rs:40-47 | The sink holds exactly the header. |
| `TraceLog.TraceWriter.Append` | crates/recorder/src/trace/writer.rs:50-61 | One frame is added under the next seq, which is returned. |
| `TraceLog.TraceReader.ReadExactOrEof` | crates/recorder/src/trace/reader.rs:155-169 | A read is full, partial or at the end, by the bytes left, for any chunking of the source. |
| `TraceLog.TraceReader.ReadOne` | crates/recorder/src/trace/reader.rs:76-127 | A record is read by length, checksum, body and sequence check, in that order. |
| `TraceLog.TraceReader.Next` | crates/recorder/src/trace/reader.rs:130-146 | After an error the reader yields nothing more. |
| `TraceLog.AcceptedSeqsIncrease` | crates/recorder/src/trace/reader.rs:116-127 | On arbitrary bytes the accepted seqs strictly increase. |
| `TraceWire.AcceptedExactly` | crates/recorder/src/trace/reader.rs:76-127 | On any bytes a record is accepted if and only if its frame is whole and its length within bounds, its checksum is that of its body, and its seq exceeds the last; it is then the record spelt by the body's bytes, in either body layout. |
| `TraceWire.RefusedExactly` | crates/recorder/src/trace/reader.rs:76-127 | Each error is reported if and only if it has its cause: a length over 16 MiB, a short frame, a wrong checksum, a seq that does not increase. |
| `TraceWire.BodyIsRead` | crates/recorder/src/trace/format.rs:252-274 | Decoding a body reads these bytes: seq, time, from version 3 on the tid, the kind's number, the payload. |
| `TraceWire.OpensExactly` | crates/recorder/src/trace/reader.rs:26-63 | A trace opens if and only if it has the magic number, a version up to 3, a complete header and, from version 2 on, a well-formed command line. |
| `TraceWire.CmdlineIsRead` | crates/recorder/src/trace/format.rs:69-100 | A command line is decoded if and only if the bytes spell it. |
| `TraceWire.FrameWritten` | crates/recorder/src/trace/writer.rs:50-61 | A written frame is the body's length, the body with each field at its place, and the body's checksum. |
| `TraceWire.HeaderWritten` | crates/recorder/src/trace/writer.rs:40-47 | A written header is the magic number, version 3, the header's length and the command line. |
| `TraceRoundTrip.HeaderRoundTrip` | crates/recorder/src/trace/reader.rs:26-63 | A written header opens with its command line, also with reserved bytes behind it. |
| `TraceRoundTrip.CmdlineKeptExactly` | crates/recorder/src/trace/writer.rs:40-47 | A command line survives exactly when its encoding fits the header length. |
| `TraceRoundTrip.RecordExact` | crates/recorder/src/trace/reader.rs:76-114 | A written record is read back exactly when its body is within the limit and its kind survives. |
| `TraceRoundTrip.RecordsExact` | crates/recorder/src/trace/reader.rs:76-146 | All records are read back under consecutive seqs if and only if each one survives. |
| `TraceRoundTrip.TraceRoundTrip` | crates/recorder/src/trace/writer.rs:40-61 | Reading a written trace returns command line and events under seqs 0, 1, 2, ... |
| `TraceRoundTrip.TruncationExact` | crates/recorder/src/trace/reader.rs:26-169 | A written trace cut inside its header does not open; cut anywhere past it, it opens to its command line and yields exactly the records wholly before the cut, then a clean end on a frame boundary or one truncation error otherwise. |
| `Payload.EnterRoundTrip` | crates/recorder/src/capture/payload.rs:176-199 | A syscall-entry payload decodes to what was encoded. |
| `Payload.ExitRoundTrip` | crates/recorder/src/capture/payload.rs:209-236 | A syscall-exit payload decodes to what was encoded exactly when its data length fits 32 bits. |
| `Payload.SpawnRoundTrip` | crates/recorder/src/capture/payload.rs:76-90 | Parent and child of a spawn payload come back. |
| `Payload.TidRoundTrip` | crates/recorder/src/capture/payload.rs:62-71 | A tid payload comes back. |
| `Payload.WireRoundTrip` | crates/recorder/src/capture/payload.rs:62-235 | Every storable recorder event decodes from its stored form to itself. |
| `Payload.LogSurvives` | crates/recorder/src/trace/reader.rs:76-146 | A whole recorder log, written and read, decodes to itself under seqs 0, 1, 2, ... |
| `PayloadWire.EventIsRead` | crates/recorder/src/capture/payload.rs:62-236 | Replay reads an event's body if and only if its kind and the payload's bytes spell it, in two's complement where signed. |
| `PayloadWire.LifecycleKinds` | crates/replay/src/schedule.rs:27-34 | The kinds that select schedule-enforcing replay are those numbered 3, 9 and 10. |
| `EndToEnd.TraceLoads` | crates/replay/src/session.rs:100-108 | The bytes of a trace load as the command line and the log. |
| `EndToEnd.SessionDrivesReplayer` | crates/replay/src/session.rs:301-303 | Driving a multi-threaded session is driving the schedule-enforcing replayer. |
| `EndToEnd.MultithreadedReplay` | crates/replay/src/session.rs:293-303 | A session on a multi-threaded log of a recording diverges exactly when a thread stopped itself and went on, at its first record then; otherwise it resumes the live twins in recorded order and ends as the leader did exactly when the leader's exit is logged, else runs out of records. |
| `EndToEnd.SingleTraceeReplay` | crates/replay/src/session.rs:293-330 | A session on any other log of a recording follows it faithfully exactly when the leader made no exec and no `SIGSTOP` stop, and then ends as the leader did if the recording is over. |
| `EndToEnd.RecordedTraceReplays` | crates/replay/src/session.rs:100-108 | The trace file of any recording under the kernel hypotheses loads, and the session picks the driver by its records; each driver follows it exactly under its condition. |
| `TaskTree.TryFromNodes` | crates/decoder/src/model/tree.rs:33-64 | A tree is built exactly when ids are distinct and parents present; a repeated id is reported first; roots and children are listed in ascending id. |
| `TaskTree.FileAll` | crates/decoder/src/model/tree.rs:46-64 | Filing nodes in ascending id gives every parent its children in ascending id, and fails exactly on an absent parent. |
| `Forest.RootPathUnique` | crates/decoder/src/model/tree.rs:82-84 | A node has at most one path from a root, even with cyclic parent links elsewhere. |
| `Forest.FlattenPathsOk` | crates/decoder/src/model/tree.rs:103-117 | The projection visits exactly the root paths, in lexicographic order. |
| `Forest.ForestProjection` | crates/decoder/src/model/tree.rs:103-117 | Every node reachable from a root is listed exactly once and nothing else, parents first, sibling subtrees in ascending id. |
| `Forest.AllListedIffAcyclic` | crates/decoder/src/model/tree.rs:103-117 | All nodes are listed if and only if parent links form no cycle. |
| `Forest.PushPreorder` | crates/decoder/src/model/tree.rs:111-117 | The recursive push terminates on every accepted tree and appends the subtree's pre-order. |
| `Forest.FlattenPreorder` | crates/decoder/src/model/tree.rs:103-109 | The loop over roots computes the pre-order list. |
| `AwaitStack.ReadDiscriminant` | crates/decoder/src/async_rust/decode.rs:26-38 | The byte loop reads the little-endian number. |
| `AwaitStack.FindLeaf` | crates/decoder/src/async_rust/decode.rs:65-87 | The bounded loop computes the leaf of the await chain. |
| `AwaitStack.BuildStack` | crates/decoder/src/async_rust/decode.rs:155-207 | The bounded loop computes the stack. |
| `AwaitStack.StackLeafExact` | crates/decoder/src/async_rust/decode.rs:65-87 | On every memory and layout set, leaf and stack agree (failures included) if and only if the walk meets no non-suspend variant with an awaitee, or the awaitees in memory from there on lead to no leaf; a stack has at most 65 frames. |
| `AwaitStack.StackStateAgreement` | crates/decoder/src/async_rust/decode.rs:93-133 | If non-suspend variants await nothing: same failures, the leaf is the last frame, and block reason and wake cause are its classification. |
| `AwaitStack.ReturnedWithAwaitee` | crates/decoder/src/async_rust/decode.rs:155-207 | Without that hypothesis a finished coroutine can have a leaf its stack lacks. |
| `AwaitChain.StackIsChain` | crates/decoder/src/async_rust/decode.rs:155-207 | The stack is decoded as these frames if and only if memory and layouts hold a chain of coroutines, each awaiting the next inside itself, none left out, up to 64 of them, that the frames describe: one per coroutine with its name, await point and what it awaits, and one for the leaf. |
| `AwaitChain.FailsWhereItBreaks` | crates/decoder/src/async_rust/decode.rs:155-207 | A failing stack fails at the first coroutine of its chain that cannot be decoded, with that coroutine's error. |
| `AwaitChain.LeafIsRead` | crates/decoder/src/async_rust/decode.rs:65-87 | The leaf is the type the awaitees lead to in memory, within 64 coroutines. |
| `AwaitChain.HeaderBits` | crates/decoder/src/async_rust/state.rs:49-63 | The state a header word stands for, for every combination of its bits. |
| `AwaitChain.StateIsRead` | crates/decoder/src/async_rust/decode.rs:93-133 | State and wake cause are these if and only if memory tells so: the header's or the selected variant's state, refined by the leaf's classification. |
| `FanOutWalk.Expand` | crates/decoder/src/async_rust/decoder.rs:170-218 | Expansion ends on every memory and layout set; success extends the list and keeps it within MAX_TASKS. |
| `FanOutWalk.FirstFresh` | crates/decoder/src/async_rust/decoder.rs:121-124 | The first fresh id is one past the largest root id. |
| `FanOutWalk.ExpandInto` | crates/decoder/src/async_rust/decoder.rs:170-218 | The recursion with its loop over children computes the expansion. |
| `FanOutWalk.EnumerateInto` | crates/decoder/src/async_rust/decoder.rs:121-138 | The loop over roots computes the enumeration. |
| `FanOutWalk.ExpandNumbers` | crates/decoder/src/async_rust/decoder.rs:204-217 | Descendants are numbered consecutively in the order they are pushed. |
| `FanOutWalk.ExpandWalks` | crates/decoder/src/async_rust/decoder.rs:170-218 | The pushed nodes' paths are in lexicographic order, each below one pushed before. |
| `DecodeTasks.WalkMakesATree` | crates/decoder/src/async_rust/decoder.rs:121-138 | Ids are distinct exactly when root ids are; parents are present; each child's id exceeds its parent's; at most MAX_TASKS nodes. |
| `DecodeTasks.WalkOrderIsPreorder` | crates/decoder/src/async_rust/decoder.rs:121-138 | Every walked node is listed, and the tree's pre-order is the walk order if and only if root ids ascend. |
| `TaskContents.WalkReadsMemory` | crates/decoder/src/async_rust/decoder.rs:121-218 | The parentless nodes of a walk are its roots, where and what they were given to be; the nodes under each node are, one for one and in order, the children of the variant memory selects at it, each at its offset from that node and with its type; every state and wake cause is what memory tells, with the header for roots only. |
| `TaskContents.TreeReadsMemory` | crates/decoder/src/async_rust/decoder.rs:233-246 | The same of the decoded tree and its child lists. |
| `FanOutFamily.WalkSucceedsExactly` | crates/decoder/src/async_rust/decoder.rs:121-218 | The walk succeeds if and only if memory holds a finite family of readable coroutines under every root, of at most 65536 in all; it has one node for each of them. |
| `DecodeTasks.Decode` | crates/decoder/src/async_rust/decoder.rs:233-246 | A tree exists exactly when the walk succeeds on distinct root ids; it is acyclic and holds the walk's nodes. |
| `DecodeTasks.SelfNestingIsRefused` | crates/decoder/src/async_rust/decoder.rs:181-185 | A coroutine whose first branch is itself is refused at the limit. |
| `DecodeTasks.FanOutCycleIsRefused` | crates/decoder/src/async_rust/decoder.rs:170-218 | A coroutine that is its own descendant, at any depth and through any branches, is refused. |
| `OwnedTasks.WalkShard` | crates/decoder/src/async_rust/enumerate/walk.rs:94-119 | The pointer-chasing loop computes the guarded walk and ends on any memory. |
| `OwnedTasks.WalkExact` | crates/decoder/src/async_rust/enumerate/walk.rs:94-119 | The walk succeeds if and only if the list ends in null within the limit, and then returns its nodes in link order. |
| `OwnedTasks.ListDistinct` | crates/decoder/src/async_rust/enumerate/walk.rs:94-119 | A list that ends visits no node twice. |
| `OwnedTasks.CycleIsRefused` | crates/decoder/src/async_rust/enumerate/walk.rs:94-119 | A list that leads back into itself at any node makes the walk fail. |
| `OwnedTasks.CollectFromOwned` | crates/decoder/src/async_rust/enumerate/walk.rs:71-91 | The loop over shards computes the collection. |
| `OwnedTasks.CollectExact` | crates/decoder/src/async_rust/enumerate/walk.rs:71-119 | Collection returns exactly the nodes of all shards in shard then link order if and only if the slice is readable, the shard count plausible and every list ends, within MAX_TASKS in all. |
| `OwnedTasks.CyclicShardIsRefused` | crates/decoder/src/async_rust/enumerate/walk.rs:71-119 | One cyclic shard makes the whole collection fail. |
| `OwnedTasks.CollectedRead` | crates/decoder/src/async_rust/enumerate/walk.rs:94-119 | A collected task is what its header's node reads as. |
| `OwnedMemory.EntryIsNode` | crates/decoder/src/async_rust/enumerate/walk.rs:94-119 | A list node is read exactly when memory holds its words: vtable at the header, poll function and trailer offset in the vtable, next link in the trailer. |
| `OwnedMemory.FailsWhereItStops` | crates/decoder/src/async_rust/enumerate/walk.rs:94-119 | A failing walk has followed links through readable nodes to one past 2^20 or one that is not readable, and reports which. |
| `OwnedMemory.CollectIsMemory` | crates/decoder/src/async_rust/enumerate/walk.rs:71-119 | Collection returns these tasks if and only if memory holds a slice of at most 65536 shards whose null-terminated lists are these tasks, in order, at most 2^20 in all. |
| `OwnedMemory.ContextIsMemory` | crates/decoder/src/async_rust/enumerate/walk.rs:53-67 | A thread has no runtime exactly when its handle cell holds null; otherwise its tasks are those of the runtime the cell points to. |
| `LiveRoots.CollectRaw` | crates/decoder/src/async_rust/enumerate/mod.rs:97-134 | Succeeds exactly when no thread fails and one holds a runtime; returns the tasks found on any thread, each once, by ascending header; otherwise the first failure or the missing pointer or handle is reported. |
| `LiveRoots.HeaderDeterminesTask` | crates/decoder/src/async_rust/enumerate/mod.rs:119-124 | Keying by header loses nothing: two threads that reach the same header read the same task. |
| `LiveRoots.RootsFromRaw` | crates/decoder/src/async_rust/enumerate/mod.rs:138-158 | The decodable tasks become roots in order, numbered 1, 2, 3, ... |
| `LiveRoots.TypeIsDebiased` | crates/decoder/src/async_rust/enumerate/mod.rs:146-150 | A task's type is that of the function which, loaded with the bias, runs at its poll address. |
| `LiveRoots.KeptExactly` | crates/decoder/src/async_rust/enumerate/mod.rs:138-158 | The tasks kept are exactly the decodable ones, in order. |
| `LiveRoots.EffectiveRoots` | crates/decoder/src/async_rust/decoder.rs:143-167 | Explicit roots win; otherwise there are roots exactly when the target is enumerable, and they are exactly the decodable tasks found on any thread, by ascending header, numbered from 1, each at its future with its type and header. |
| `LiveRoots.DecodeTarget` | crates/decoder/src/async_rust/decoder.rs:233-246 | Declined exactly when there are neither explicit roots nor an enumerable target; otherwise there is a tree exactly when the walk succeeds on distinct roots, and a live one lists in walk order. |

## Left out

- Transparency.CheckpointsAreTransparent: the drive loop of one session may run forever on a tracee that never stops at a syscall, so drives carry a fuel argument; running out stands for a call that has not returned, and `Backend.FuelDoesNotMatter` shows the amount never changes an answer.
- Transparency.CheckpointsAreTransparent: histories are error-free; sessions after a failed call are the subject of `Derailment` and `Backend`.
- Backend.HistoryStands: a multi-threaded replay that waits for a thread with no stop left never returns; the model counts that as one more failure after which serving goes on.
- Density.CheckpointDensity: seqs are bounded below the largest 64-bit value, where saturation allows a repeated checkpoint.
- Simulation.RecordReplay: a respawned multi-threaded target gets the same live pids; the original gets new ones, which only renames them.
- Simulation.RecordReplay: events enter the replay functions already decoded; malformed payloads appear only in `Payload.DecodeEvent`.
- AwaitStack.StackLeafExact: display names are kept as full type names; shortening them is left out, as is the leaf classification table, which is a parameter.
- OwnedTasks.CollectExact: addresses are unbounded, so 64-bit overflow of an address sum is not modelled; the same holds for coroutine addresses.
- TraceRoundTrip.RecordExact: the checksum is an arbitrary function; nothing is claimed about corruption beyond `TraceWire.AcceptedExactly`: accepted implies checksum equal. UTF-8 validity is a parameter too.
- Ptrace, waitpid, registers, affinity, the preemption timer and clocks: reported stops, register contents, tracee memory and timestamps are inputs.
- Failures of system calls made by the recorder or replayer itself, such as an unreadable tracee or a full disk.
- The body of the fork snapshot; only its contract, an equal state, is used.
- Hardware watchpoints, watch hits, backtraces, and captured standard output.
- The aarch64 syscall numbers; the injected set is the x86-64 one.
- DWARF, ELF and TLS resolution, symbolization and unwinding: layouts, type maps and context addresses are inputs.
- The Go and native decoders, the eBPF capture, the command line tool and the JSON shaping of debugger replies.
