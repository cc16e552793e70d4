/** The replay session: drive one recorded target, keep checkpoints, travel back. */
module Session {
  import opened Common
  import opened Injection
  import opened Scheduling
  import opened SchedulerProperties
  import opened Recording
  import opened MtReplay
  import opened CheckpointSelect

  datatype TraceeStop =
    | AtSyscall
    | SignalStop(sig: Signal)
    | ExitedWith(code: int)
    | KilledBy(sig: Signal)
    | OtherStop

  /** The tracee as the driver sees it: a deterministic process. Equal states
      resumed alike stop alike, and a fork snapshot is an equal state. */
  datatype Machine<!T(!new)> = Machine(
    entry: T,
    resume: (T, Option<Signal>) -> (T, TraceeStop),
    regs: T -> SyscallRegs,
    suppress: T -> T,
    inject: (T, nat, seq<byte>, i64) -> T)

  /** A recording opened for replay. A multi-threaded one is driven through the
      threads of `target`, any other through `machine`. */
  datatype Env<!T(!new)> = Env(machine: Machine<T>, target: Proc, records: seq<Record>) {
    predicate Multithreaded() {
      exists i :: 0 <= i < |records| && IsLifecycle(records[i].event)
    }

    /** The reader lets no other sequence of records through. */
    ghost predicate Valid() {
      forall i, j :: 0 <= i < j < |records| ==> records[i].seqNo < records[j].seqNo
    }
  }

  datatype Pending = Pending(injectAddr: Option<nat>)

  /** Where a session sits in its replay. */
  datatype Seat<!T(!new)> =
    | Single(
        tracee: T,
        cursor: nat,
        currentSeq: Option<nat>,
        pending: Option<Pending>,
        resumeSignal: Option<Signal>,
        lastRegs: Option<SyscallRegs>,
        finished: Option<ExitOutcome>)
    | Multi(rep: Rep)
  {
    function Seq(): Option<nat> {
      if Single? then currentSeq else rep.currentSeq
    }

    function Cursor(): nat {
      if Single? then cursor else rep.cursor
    }

    function Finished(): Option<ExitOutcome> {
      if Single? then finished else rep.finished
    }
  }

  datatype Snapshot<!T(!new)> = Snapshot(
    seqNo: nat, cursor: nat, currentSeq: Option<nat>, lastRegs: Option<SyscallRegs>, tracee: T)

  datatype State<!T(!new)> = State(seat: Seat<T>, interval: nat, checkpoints: seq<Snapshot<T>>)

  /** Why a call gave no outcome; `OutOfFuel` stands for one that has not returned. */
  datatype Halt = Failed(error: ReplayError) | OutOfFuel

  type Driven<!T(!new)> = Result<T, Halt>

  function Entry<T(!new)>(env: Env<T>): Seat<T> {
    if env.Multithreaded() then Multi(Launch(env.target))
    else Single(env.machine.entry, 0, None, None, None, None, None)
  }

  function Launched<T(!new)>(env: Env<T>): State<T> {
    State(Entry(env), 0, [])
  }

  // ---- One turn of the drive loop ------------------------------------------------

  function SkipCheckpoints(records: seq<Record>, cursor: nat): (c: nat)
    ensures cursor <= c
    ensures c < |records| ==> !records[c].event.body.Checkpoint?
    ensures c == cursor || c <= |records|
    ensures forall k :: cursor <= k < c && k < |records| ==> records[k].event.body.Checkpoint?
    decreases |records| - cursor
  {
    if cursor < |records| && records[cursor].event.body.Checkpoint?
    then SkipCheckpoints(records, cursor + 1) else cursor
  }

  function OnEntry<T(!new)>(env: Env<T>, s: Seat<T>, regs: SyscallRegs): Result<Seat<T>, ReplayError>
    requires s.Single?
  {
    var at := SkipCheckpoints(env.records, s.cursor);
    if at >= |env.records| then Err(TraceExhausted)
    else
      var record := env.records[at];
      match record.event.body
      case SyscallEnter(nr, _) =>
        if nr != regs.nr then Err(Diverged(record.seqNo))
        else
          var addr := InjectionAddr(regs.nr, regs.args);
          Ok(s.(cursor := at + 1, currentSeq := Some(record.seqNo), pending := Some(Pending(addr)),
                tracee := if addr.Some? then env.machine.suppress(s.tracee) else s.tracee))
      case _ => Err(UnexpectedRecord(record.seqNo))
  }

  function OnExit<T(!new)>(env: Env<T>, s: Seat<T>, pending: Pending): Result<Seat<T>, ReplayError>
    requires s.Single?
  {
    var at := SkipCheckpoints(env.records, s.cursor);
    if at >= |env.records| then Err(TraceExhausted)
    else
      var record := env.records[at];
      match record.event.body
      case SyscallExit(_, ret, data) =>
        Ok(s.(cursor := at + 1, currentSeq := Some(record.seqNo), pending := None,
              tracee := if pending.injectAddr.Some?
                        then env.machine.inject(s.tracee, pending.injectAddr.value, data, ret) else s.tracee))
      case _ => Err(UnexpectedRecord(record.seqNo))
  }

  function OnSignalStop<T(!new)>(env: Env<T>, s: Seat<T>, sig: Signal): Result<Seat<T>, ReplayError>
    requires s.Single?
  {
    var at := SkipCheckpoints(env.records, s.cursor);
    if at < |env.records| && env.records[at].event.body.Delivery? then
      var record := env.records[at];
      if record.event.body.signum != sig then Err(ScheduleDiverged(record.seqNo))
      else Ok(s.(cursor := at + 1, currentSeq := Some(record.seqNo), resumeSignal := Some(sig)))
    else Ok(s.(cursor := at, resumeSignal := Some(sig)))
  }

  /** Resume a single tracee to its next stop and handle it; also says whether that was a syscall stop. */
  function StepSingle<T(!new)>(env: Env<T>, s: Seat<T>): Result<(Seat<T>, bool), ReplayError>
    requires s.Single?
  {
    var (tracee, stop) := env.machine.resume(s.tracee, s.resumeSignal);
    var s1 := s.(tracee := tracee, resumeSignal := None);
    match stop
    case AtSyscall =>
      var regs := env.machine.regs(tracee);
      var s2 := s1.(lastRegs := Some(regs));
      var s3 :- if s.pending.None? then OnEntry(env, s2, regs) else OnExit(env, s2, s.pending.value);
      Ok((s3, true))
    case SignalStop(sig) =>
      var s2 :- OnSignalStop(env, s1, sig);
      Ok((s2, false))
    case ExitedWith(code) => Ok((s1.(finished := Some(HasExited(code))), false))
    case KilledBy(sig) => Ok((s1.(finished := Some(HasSignaled(sig))), false))
    case OtherStop => Ok((s1, false))
  }

  function Step<T(!new)>(env: Env<T>, s: Seat<T>): Result<(Seat<T>, bool), ReplayError> {
    if s.Single? then StepSingle(env, s)
    else if s.rep.cursor >= |env.records| then Err(TraceExhausted)
    else
      var rep :- Consume(s.rep, env.records[s.rep.cursor]);
      Ok((Multi(rep), false))
  }

  /** The seat a failing turn leaves: the tracee has moved on, a syscall stop has taken
      the pending entry, and the record it did not fit is behind the cursor; a
      signal that did not fit leaves its record ahead. The seq stays. */
  function StepLeaves<T(!new)>(env: Env<T>, s: Seat<T>): (n: Seat<T>)
    ensures n.Seq() == s.Seq() && n.Finished() == s.Finished() && n.Multi? == s.Multi? && s.Cursor() <= n.Cursor()
  {
    if s.Multi? then
      if s.rep.cursor >= |env.records| then s else Multi(ConsumeLeaves(s.rep, env.records[s.rep.cursor]))
    else
      var (tracee, stop) := env.machine.resume(s.tracee, s.resumeSignal);
      var s1 := s.(tracee := tracee, resumeSignal := None);
      var at := SkipCheckpoints(env.records, s.cursor);
      if stop.AtSyscall? then
        s1.(lastRegs := Some(env.machine.regs(tracee)), pending := None,
            cursor := if at < |env.records| then at + 1 else at)
      else s1.(cursor := at)
  }

  // ---- Driving, checkpointing, restoring ----------------------------------------------

  function LastCheckpoint<T(!new)>(st: State<T>): Option<nat> {
    if st.checkpoints == [] then None else Some(st.checkpoints[|st.checkpoints| - 1].seqNo)
  }

  function MaybeCheckpoint<T(!new)>(env: Env<T>, st: State<T>): State<T> {
    if env.Multithreaded() || !st.seat.Single? || st.seat.pending.Some? || st.seat.currentSeq.None? then st
    else if !IsCheckpointDue(LastCheckpoint(st), st.seat.currentSeq.value, st.interval) then st
    else
      st.(checkpoints := st.checkpoints + [Snapshot(st.seat.currentSeq.value, st.seat.cursor,
                                                    st.seat.currentSeq, st.seat.lastRegs, st.seat.tracee)])
  }

  predicate Arrived<T(!new)>(s: Seat<T>, stopAt: Option<nat>) {
    stopAt.Some? && s.Seq().Some? && s.Seq().value >= stopAt.value
  }

  function DriveSession<T(!new)>(env: Env<T>, st: State<T>, stopAt: Option<nat>, fuel: nat)
      : Driven<(State<T>, ExitOutcome)>
    decreases fuel
  {
    if st.seat.Finished().Some? then Ok((st, st.seat.Finished().value))
    else if Arrived(st.seat, stopAt) then Ok((st, StillRunning))
    else if fuel == 0 then Err(OutOfFuel)
    else match Step(env, st.seat)
      case Err(e) => Err(Failed(e))
      case Ok((seat, syscallStop)) =>
        var moved := st.(seat := seat);
        DriveSession(env, if syscallStop then MaybeCheckpoint(env, moved) else moved, stopAt, fuel - 1)
  }

  /** The state a drive ends in, whether it returns an outcome or fails. */
  function DriveEnds<T(!new)>(env: Env<T>, st: State<T>, stopAt: Option<nat>, fuel: nat): State<T>
    decreases fuel
  {
    if st.seat.Finished().Some? || Arrived(st.seat, stopAt) || fuel == 0 then st
    else match Step(env, st.seat)
      case Err(_) => st.(seat := StepLeaves(env, st.seat))
      case Ok((seat, syscallStop)) =>
        var moved := st.(seat := seat);
        DriveEnds(env, if syscallStop then MaybeCheckpoint(env, moved) else moved, stopAt, fuel - 1)
  }

  function SnapshotSeat<T(!new)>(cp: Snapshot<T>): Seat<T> {
    Single(cp.tracee, cp.cursor, cp.currentSeq, None, None, cp.lastRegs, None)
  }

  function Seqs<T(!new)>(cps: seq<Snapshot<T>>): (r: seq<nat>)
    ensures |r| == |cps| && forall i :: 0 <= i < |cps| ==> r[i] == cps[i].seqNo
  {
    seq(|cps|, i requires 0 <= i < |cps| => cps[i].seqNo)
  }

  function PlanStart<T(!new)>(st: State<T>, target: nat): Option<nat> {
    NearestAtOrBefore(Seqs(st.checkpoints), target)
  }

  /** Re-seat at the planned start: a checkpoint, or a fresh process at entry. */
  function RestoreTo<T(!new)>(env: Env<T>, st: State<T>, target: nat): State<T> {
    match PlanStart(st, target)
    case Some(i) => st.(seat := SnapshotSeat(st.checkpoints[i]))
    case None => st.(seat := Entry(env))
  }

  function StartSeq<T(!new)>(st: State<T>, target: nat): nat {
    match PlanStart(st, target)
    case Some(i) => st.checkpoints[i].seqNo
    case None => 0
  }

  function RunStart<T(!new)>(env: Env<T>, st: State<T>, target: nat): State<T> {
    if ShouldRestart(st.seat.Seq(), StartSeq(st, target), target) then RestoreTo(env, st, target) else st
  }

  function RunTo<T(!new)>(env: Env<T>, st: State<T>, target: nat, fuel: nat): Driven<(State<T>, ExitOutcome)> {
    DriveSession(env, RunStart(env, st, target), Some(target), fuel)
  }

  function RunEnds<T(!new)>(env: Env<T>, st: State<T>, target: nat, fuel: nat): State<T> {
    DriveEnds(env, RunStart(env, st, target), Some(target), fuel)
  }

  datatype Command =
    | DoRunTo(target: nat, fuel: nat)
    | DoStepTo(target: nat, fuel: nat)
    | DoRunToEnd(fuel: nat)
    | DoRestoreTo(target: nat)
    | DoSetInterval(interval: nat)

  function Apply<T(!new)>(env: Env<T>, st: State<T>, c: Command): Driven<State<T>> {
    match c
    case DoRunTo(target, fuel) => var r :- RunTo(env, st, target, fuel); Ok(r.0)
    case DoStepTo(target, fuel) => var r :- DriveSession(env, st, Some(target), fuel); Ok(r.0)
    case DoRunToEnd(fuel) => var r :- DriveSession(env, st, None, fuel); Ok(r.0)
    case DoRestoreTo(target) => Ok(RestoreTo(env, st, target))
    case DoSetInterval(interval) => Ok(st.(interval := interval))
  }

  /** A history of calls, up to the first one that fails. */
  function ApplyAll<T(!new)>(env: Env<T>, st: State<T>, cs: seq<Command>): Driven<State<T>>
    decreases |cs|
  {
    if cs == [] then Ok(st)
    else match Apply(env, st, cs[0])
      case Err(e) => Err(e)
      case Ok(n) => ApplyAll(env, n, cs[1..])
  }

  /** The session after a call, whether it returned an outcome, failed, or is still running. */
  function Ends<T(!new)>(env: Env<T>, st: State<T>, c: Command): State<T> {
    match c
    case DoRunTo(target, fuel) => RunEnds(env, st, target, fuel)
    case DoStepTo(target, fuel) => DriveEnds(env, st, Some(target), fuel)
    case DoRunToEnd(fuel) => DriveEnds(env, st, None, fuel)
    case DoRestoreTo(target) => RestoreTo(env, st, target)
    case DoSetInterval(interval) => st.(interval := interval)
  }

  /** The session after a history of calls, which goes on past those that fail. */
  function AllEnds<T(!new)>(env: Env<T>, st: State<T>, cs: seq<Command>): State<T>
    decreases |cs|
  {
    if cs == [] then st else AllEnds(env, Ends(env, st, cs[0]), cs[1..])
  }
}
