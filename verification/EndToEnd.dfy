/** From a recorder run to the bytes of its trace file and back into replay. */
module EndToEnd {
  import opened Common
  import Scheduling
  import opened SchedulerProperties
  import opened Recording
  import MtReplay
  import opened Simulation
  import Completion
  import Conservation
  import Session
  import Transparency
  import SoloReplay
  import opened TraceFormat
  import TraceLog
  import TraceRoundTrip
  import opened Payload

  /** The records the replayer sees: read, then decoded one by one. */
  function DecodeAll(records: seq<TraceFormat.Record>): Result<seq<MtReplay.Record>, PayloadError> {
    if records == [] then Ok([])
    else
      var e :- DecodeEvent(records[0].event);
      var rest :- DecodeAll(records[1..]);
      Ok([MtReplay.Record(records[0].seqNo, e)] + rest)
  }

  /** Open a trace and load all of it; `None` if any byte of it is refused. */
  function Load(codec: Codec, bytes: seq<byte>): Option<(Option<Cmdline>, seq<MtReplay.Record>)> {
    var opening := TraceLog.Open(codec, bytes);
    if opening.Err? then None
    else
      var (records, error) := TraceLog.ReadAll(codec, opening.value.version, None, opening.value.rest);
      if error.Some? then None
      else
        var decoded := DecodeAll(records);
        if decoded.Err? then None else Some((opening.value.cmdline, decoded.value))
  }

  lemma {:induction false} DecodedIsLogged(records: seq<TraceFormat.Record>, log: seq<Scheduling.Event>, from: nat)
    requires |records| == |log|
    requires forall i :: 0 <= i < |log| ==> records[i].seqNo == from + i && DecodeEvent(records[i].event) == Ok(log[i])
    ensures DecodeAll(records).Ok? && |DecodeAll(records).value| == |log|
    ensures forall i :: 0 <= i < |log| ==> DecodeAll(records).value[i] == MtReplay.Record(from + i, log[i])
    decreases |log|
  {
    hide DecodeEvent;
    if records != [] {
      DecodedIsLogged(records[1..], log[1..], from + 1);
    }
  }

  /** Every event of a log has a byte form. */
  ghost predicate Storable(log: seq<Scheduling.Event>) {
    |log| <= U64_MAX && forall i :: 0 <= i < |log| ==> Encodable(log[i])
  }

  ghost function TraceBytes(codec: Codec, c: Cmdline, log: seq<Scheduling.Event>, clock: nat -> u64): seq<byte>
    requires Storable(log) && BASE_HEADER_LEN + |EncodeCmdline(c)| < 0x1_0000
  {
    TraceLog.Header(EncodeCmdline(c)) + TraceLog.Frames(codec, 0, WireLog(log, clock))
  }

  /** The written bytes load as the command line and the log under seqs 0, 1, 2, ... */
  lemma TraceLoads(codec: Codec, c: Cmdline, log: seq<Scheduling.Event>, clock: nat -> u64)
    requires ValidCmdline(codec, c) && BASE_HEADER_LEN + |EncodeCmdline(c)| < 0x1_0000 && Storable(log)
    ensures Load(codec, TraceBytes(codec, c, log, clock)) == Some((Some(c), Records(log)))
  {
    hide TraceLog.Open, TraceLog.Header, TraceLog.Frames, TraceLog.ReadAll, EncodeCmdline, DecodeEvent;
    var frames := TraceLog.Frames(codec, 0, WireLog(log, clock));
    TraceRoundTrip.HeaderRoundTrip(codec, c, [], frames);
    assert EncodeCmdline(c) + [] == EncodeCmdline(c);
    LogSurvives(codec, log, clock);
    var (records, error) := TraceLog.ReadAll(codec, FORMAT_VERSION, None, frames);
    DecodedIsLogged(records, log, 0);
    assert DecodeAll(records).value == Records(log);
  }

  // ---- The session's choice of driver -----------------------------------------------------

  /** Driving a multi-threaded session is driving its schedule-enforcing replayer. */
  lemma {:induction false} SessionDrivesReplayer<T(!new)>(env: Session.Env<T>, st: Session.State<T>,
                                                          stopAt: Option<nat>, fuel: nat)
    requires st.seat.Multi? && fuel > 0 && fuel > |env.records| - st.seat.rep.cursor
    ensures Session.DriveSession(env, st, stopAt, fuel)
         == match MtReplay.Drive(env.records, st.seat.rep, stopAt)
            case Ok((q, outcome)) => Ok((st.(seat := Session.Multi(q)), outcome))
            case Err(e) => Err(Session.Failed(e))
    decreases fuel
  {
    hide MtReplay.Consume;
    var p := st.seat.rep;
    if p.finished.None? && !Session.Arrived(st.seat, stopAt) && p.cursor < |env.records| {
      match MtReplay.Consume(p, env.records[p.cursor])
      case Err(_) =>
      case Ok(n) => SessionDrivesReplayer(env, st.(seat := Session.Multi(n)), stopAt, fuel - 1);
    }
  }

  /** Without checkpoints, a drive from entry passes through the seats of the path. */
  lemma {:induction false} DrivenAlong<T(!new)>(env: Session.Env<T>, k: nat, fuel: nat)
    requires Transparency.At(env, k).Some?
    ensures Session.DriveSession(env, Session.Launched(env), None, k + fuel)
         == Session.DriveSession(env, Session.State(Transparency.At(env, k).value, 0, []), None, fuel)
    decreases k
  {
    hide Session.Step;
    if k > 0 {
      DrivenAlong(env, k - 1, fuel + 1);
    }
  }

  /** What a session opened on the log of a recording does when it is driven to the end. A multi-threaded
      log is followed, thread by thread, if and only if no thread stops itself with `SIGSTOP` and goes
      on; the session then ends as the leader did exactly when the leader's exit is logged. */
  ghost predicate FollowsSchedule(leader: Proc, choices: seq<Choice>,
                                  d: Session.Driven<(Session.State<SoloReplay.Puppet>, MtReplay.ExitOutcome)>,
                                  q: MtReplay.Rep)
    requires Admissible(Start(leader), choices)
  {
    var r, last := RecordAll(Start(leader), choices), |leader.stops| - 1;
    if !Undisturbed(Start(leader), choices) then
      d == Err(Session.Failed(MtReplay.ScheduleDiverged(FirstDisturbance(Start(leader), choices).value)))
    else
      && q.cursor <= |r.directed| && q.stepped == r.directed[..q.cursor]
      && (if LogsExitOf(r.sched.log, leader.rec)
          then last >= 0 && IsDeath(leader.stops[last])
               && d == Ok((Session.State(Session.Multi(q), 0, []), MtReplay.ExitOf(leader.stops[last])))
          else d == Err(Session.Failed(MtReplay.TraceExhausted)) && q.cursor == |r.directed|)
  }

  lemma MultithreadedReplay(leader: Proc, choices: seq<Choice>) returns (q: MtReplay.Rep)
    requires Grammar(leader.stops, false) && Admissible(Start(leader), choices)
    requires IsMultithreaded(RecordAll(Start(leader), choices).sched.log)
    ensures var log := RecordAll(Start(leader), choices).sched.log;
            var env := SoloReplay.Theatre(leader, log);
            && env.Multithreaded()
            && FollowsSchedule(leader, choices, Session.DriveSession(env, Session.Launched(env), None, |log| + 1), q)
  {
    hide Grammar, Admissible, RecordAll, Feed, LoggedExit, LogsExitOf, FirstDisturbance, MtReplay.Drive;
    var log := RecordAll(Start(leader), choices).sched.log;
    var env := SoloReplay.Theatre(leader, log);
    q := RecordReplay(leader, choices);
    if Undisturbed(Start(leader), choices) {
      Completion.ReplayFinishesExactly(leader, choices, q);
    }
    ScheduleSelects(leader, log);
    SessionDrivesReplayer(env, Session.Launched(env), None, |log| + 1);
  }

  lemma ScheduleSelects(leader: Proc, log: seq<Scheduling.Event>)
    requires IsMultithreaded(log)
    ensures var env := SoloReplay.Theatre(leader, log);
            env.Multithreaded() && env.records == Records(log)
            && Session.Launched(env) == Session.State(Session.Multi(MtReplay.Launch(leader)), 0, [])
  {
    var env := SoloReplay.Theatre(leader, log);
    var i :| 0 <= i < |log| && IsLifecycle(log[i]);
    assert IsLifecycle(env.records[i].event);
  }

  /** A log without lifecycle records is that of the leader's first `j` stops; the single-tracee driver
      follows it faithfully if and only if those hold no exec and no `SIGSTOP`, and if the
      recording is over it then ends as the leader did. */
  ghost predicate FollowsAlone(leader: Proc, r: Rec, j: nat) {
    var env := SoloReplay.Theatre(leader, r.sched.log);
    && SoloReplay.LogsPrefix(r, leader, j)
    && (SoloReplay.Faithful(leader, j, r.sched.log) <==> SoloReplay.Quiet(leader.stops[..j]))
    && (r.sched.threads == map[] && SoloReplay.Quiet(leader.stops[..j]) ==>
          && j == |leader.stops| > 0 && IsDeath(leader.stops[j - 1])
          && var d := Session.DriveSession(env, Session.Launched(env), None, j);
             d.Ok? && d.value.1 == MtReplay.ExitOf(leader.stops[j - 1]) && SoloReplay.Served(leader, j, d.value.0.seat))
  }

  lemma SingleTraceeReplay(leader: Proc, choices: seq<Choice>) returns (j: nat)
    requires Grammar(leader.stops, false) && Admissible(Start(leader), choices)
    requires !IsMultithreaded(RecordAll(Start(leader), choices).sched.log)
    ensures FollowsAlone(leader, RecordAll(Start(leader), choices), j)
  {
    hide Grammar, Admissible, RecordAll, Session.DriveSession, Conservation.LogOf, SoloReplay.Quiet;
    hide Transparency.At, SoloReplay.Theatre;
    j := SoloReplay.SoloRecording(leader, choices);
    var r := RecordAll(Start(leader), choices);
    if r.sched.threads == map[] && SoloReplay.Quiet(leader.stops[..j]) {
      var env := SoloReplay.Theatre(leader, r.sched.log);
      DrivenAlong(env, j, 0);
      FinishedDrive(env, Transparency.At(env, j).value);
    }
  }

  lemma FinishedDrive<T(!new)>(env: Session.Env<T>, s: Session.Seat<T>)
    requires s.Finished().Some?
    ensures Session.DriveSession(env, Session.State(s, 0, []), None, 0)
         == Ok((Session.State(s, 0, []), s.Finished().value))
  {
  }

  /** Record, write, read, replay: the trace file of any run under the kernel hypotheses loads, and the
      session picks the driver for it: the schedule-enforcing one follows a multi-threaded
      log, the single-tracee one any other, each exactly under its condition. */
  lemma RecordedTraceReplays(codec: Codec, c: Cmdline, leader: Proc, choices: seq<Choice>, clock: nat -> u64)
      returns (q: MtReplay.Rep, j: nat)
    requires Grammar(leader.stops, false) && Admissible(Start(leader), choices)
    requires ValidCmdline(codec, c) && BASE_HEADER_LEN + |EncodeCmdline(c)| < 0x1_0000
    requires Storable(RecordAll(Start(leader), choices).sched.log)
    ensures var r := RecordAll(Start(leader), choices);
            var env := SoloReplay.Theatre(leader, r.sched.log);
            && Load(codec, TraceBytes(codec, c, r.sched.log, clock)) == Some((Some(c), env.records))
            && (env.Multithreaded() <==> IsMultithreaded(r.sched.log))
            && (if env.Multithreaded()
                then FollowsSchedule(leader, choices,
                                     Session.DriveSession(env, Session.Launched(env), None, |env.records| + 1), q)
                else FollowsAlone(leader, r, j))
  {
    hide Load, TraceBytes, Session.DriveSession, RecordAll, Grammar, Admissible, Storable, ValidCmdline;
    hide FollowsSchedule, FollowsAlone;
    var log := RecordAll(Start(leader), choices).sched.log;
    TraceLoads(codec, c, log, clock);
    DriverChosen(leader, log);
    if IsMultithreaded(log) {
      q := MultithreadedReplay(leader, choices);
      j := 0;
    } else {
      j := SingleTraceeReplay(leader, choices);
      q := MtReplay.Launch(leader);
    }
  }

  lemma DriverChosen(leader: Proc, log: seq<Scheduling.Event>)
    ensures var env := SoloReplay.Theatre(leader, log);
            env.records == Records(log) && (env.Multithreaded() <==> IsMultithreaded(log))
  {
    if IsMultithreaded(log) {
      ScheduleSelects(leader, log);
    }
  }
}
