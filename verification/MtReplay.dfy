/** Schedule-enforcing replay: walk the log and resume only the live thread it names. */
module MtReplay {
  import opened Common
  import opened Injection
  import opened Scheduling
  import opened Recording
  import opened TidMapping

  datatype Record = Record(seqNo: nat, event: Event)

  datatype ExitOutcome = HasExited(code: int) | HasSignaled(sig: Signal) | StillRunning

  /** How a dying thread's last stop is reported. */
  function ExitOf(stop: Stop): ExitOutcome
    requires IsDeath(stop)
  {
    if stop.Exit? then HasExited(stop.code) else HasSignaled(stop.sig)
  }

  datatype ReplayError =
    | TraceExhausted
    | UnexpectedRecord(seqNo: nat)
    | Diverged(seqNo: nat)
    | ScheduleDiverged(seqNo: nat)
    | NoSuchProcess
    | NeverStops

  datatype PendingSys = PendingSys(suppressed: bool, injectAddr: Option<nat>)

  datatype ThreadRt = ThreadRt(pending: Option<PendingSys>, resumeSignal: Option<Signal>)

  const NewThreadRt := ThreadRt(None, None)

  /** A live process under replay: the stops it has left, the signals it was
      handed and the results it was fed. */
  datatype LiveProc = LiveProc(rest: seq<Stop>, delivered: seq<Signal>, injected: seq<Injected>)

  /** The replay state, with the live processes (`procs`) it acts on and, per
      consumed record, the thread that record resumed (`stepped`). */
  datatype Rep = Rep(
    procs: map<Pid, LiveProc>,
    leader: Pid,
    threads: map<Pid, ThreadRt>,
    tidmap: TidMap,
    vforkSuspended: map<Pid, Pid>,
    expectedTid: Option<Tid>,
    cursor: nat,
    currentSeq: Option<nat>,
    lastRegs: Option<SyscallRegs>,
    finished: Option<ExitOutcome>,
    stepped: seq<Option<Pid>>)

  function Launch(leader: Proc): Rep {
    Rep(map[leader.live := LiveProc(leader.stops, [], [])], leader.live,
        map[leader.live := NewThreadRt], EmptyTidMap, map[], None, 0, None, None, None, [])
  }

  type Outcome<T> = Result<T, ReplayError>

  function Classify(nr: u64, args: Args): PendingSys {
    match InjectionAddr(nr, args)
    case Some(addr) => PendingSys(true, Some(addr))
    case None => PendingSys(false, None)
  }

  function SkipExecs(rest: seq<Stop>): (r: seq<Stop>)
    ensures r == [] || !r[0].Exec?
  {
    if rest != [] && rest[0].Exec? then SkipExecs(rest[1..]) else rest
  }

  /** Nothing about how far replay has come differs. */
  ghost predicate SameProgress(p: Rep, n: Rep) {
    && n.cursor == p.cursor && n.stepped == p.stepped && n.currentSeq == p.currentSeq
    && n.leader == p.leader && n.finished == p.finished
  }

  /** The record carries the tid the schedule expects, which stays expected. */
  ghost predicate TagChecked(p: Rep, n: Rep, r: Record) {
    && r.event.tid.Some? && n.expectedTid == r.event.tid
    && (p.expectedTid.None? || p.expectedTid == r.event.tid)
  }

  /** Exactly one record was consumed. */
  ghost predicate Progressed(p: Rep, n: Rep, seqNo: nat) {
    && n.cursor == p.cursor + 1 && n.leader == p.leader && n.currentSeq == Some(seqNo)
    && |n.stepped| == |p.stepped| + 1 && p.stepped <= n.stepped
  }

  /** Resume one live process to its next stop, passing over followed execs. */
  function StepThread(p: Rep, live: Pid, sig: Option<Signal>): (n: Outcome<(Rep, Stop)>)
    ensures n.Ok? ==> SameProgress(p, n.value.0) && n.value.0.expectedTid == p.expectedTid
  {
    if live !in p.procs then Err(NoSuchProcess)
    else
      var proc := p.procs[live];
      var rest := SkipExecs(proc.rest);
      if rest == [] then Err(NeverStops)
      else
        var moved := LiveProc(rest[1..], proc.delivered + AsSeq(sig), proc.injected);
        var procs := match rest[0]
          case Exit(_) => p.procs - {live}
          case Killed(_) => p.procs - {live}
          case Spawn(child, _) => p.procs[live := moved][child.live := LiveProc(child.stops, [], [])]
          case _ => p.procs[live := moved];
        Ok((p.(procs := procs), rest[0]))
  }

  /** The record must be tagged with the thread the schedule names; the first one names the leader. */
  function EnforceTid(p: Rep, r: Record): Outcome<(Rep, Tid)> {
    if r.event.tid.None? then Err(ScheduleDiverged(r.seqNo))
    else
      var tid := r.event.tid.value;
      if p.expectedTid.None? then Ok((p.(expectedTid := Some(tid)), tid))
      else if p.expectedTid.value == tid then Ok((p, tid))
      else Err(ScheduleDiverged(r.seqNo))
  }

  function LiveFor(p: Rep, tid: Tid, seqNo: nat): Outcome<(Rep, Pid)> {
    if tid in p.tidmap.toLive then Ok((p, p.tidmap.toLive[tid]))
    else if p.tidmap.toLive == map[] then
      match p.tidmap.Bind(tid, p.leader)
      case Ok(bound) => Ok((p.(tidmap := bound), p.leader))
      case Err(_) => Err(ScheduleDiverged(seqNo))
    else Err(ScheduleDiverged(seqNo))
  }

  /** Which thread a record directs replay to, as both checks in a row. */
  function Attend(p: Rep, r: Record): (n: Outcome<(Rep, Tid, Pid)>)
    ensures n.Ok? ==> SameProgress(p, n.value.0) && TagChecked(p, n.value.0, r)
    ensures n.Ok? ==> n.value.0.procs == p.procs && n.value.0.threads == p.threads
  {
    var (p1, tid) :- EnforceTid(p, r);
    var (p2, live) :- LiveFor(p1, tid, r.seqNo);
    Ok((p2, tid, live))
  }

  function WaitingSignal(p: Rep, live: Pid): Option<Signal> {
    if live in p.threads then p.threads[live].resumeSignal else None
  }

  /** `take_resume_signal` followed by the step it is handed to. */
  function StepWithSignal(p: Rep, live: Pid): (n: Outcome<(Rep, Stop)>)
    ensures n.Ok? ==> SameProgress(p, n.value.0) && n.value.0.expectedTid == p.expectedTid
  {
    StepThread(SignalTaken(p, live), live, WaitingSignal(p, live))
  }

  function SignalTaken(p: Rep, live: Pid): Rep {
    if live in p.threads
    then p.(threads := p.threads[live := p.threads[live].(resumeSignal := None)]) else p
  }

  function Advance(p: Rep, seqNo: nat, stepped: Option<Pid>): Rep {
    p.(currentSeq := Some(seqNo), cursor := p.cursor + 1, stepped := p.stepped + [stepped])
  }

  function OnSchedSwitch(p: Rep, r: Record, next: Tid): Rep {
    Advance(p.(expectedTid := Some(next)), r.seqNo, None)
  }

  function SetPending(p: Rep, live: Pid, pending: Option<PendingSys>): Rep {
    if live in p.threads then p.(threads := p.threads[live := p.threads[live].(pending := pending)]) else p
  }

  function OnSyscallEnter(p: Rep, r: Record, nr: u64): (n: Outcome<Rep>)
    ensures n.Ok? ==> Progressed(p, n.value, r.seqNo) && TagChecked(p, n.value, r)
    ensures n.Ok? ==> n.value.finished == p.finished
  {
    var (p1, _, live) :- Attend(p, r);
    var (p2, stop) :- StepWithSignal(p1, live);
    if !stop.Syscall? then Err(ScheduleDiverged(r.seqNo))
    else if nr != stop.regs.nr then Err(Diverged(r.seqNo))
    else
      var p3 := p2.(lastRegs := Some(stop.regs));
      Ok(Advance(SetPending(p3, live, Some(Classify(stop.regs.nr, stop.regs.args))), r.seqNo, Some(live)))
  }

  /** Feed a suppressed syscall its recorded result; a real one is left alone. */
  function Inject(p: Rep, live: Pid, pending: PendingSys, data: seq<byte>, ret: i64): Rep {
    if pending.suppressed && pending.injectAddr.Some? && live in p.procs
    then p.(procs := p.procs[live := p.procs[live].(injected :=
              p.procs[live].injected + [Injected(pending.injectAddr.value, data, ret)])])
    else p
  }

  function OnSyscallExit(p: Rep, r: Record, ret: i64, data: seq<byte>): (n: Outcome<Rep>)
    ensures n.Ok? ==> Progressed(p, n.value, r.seqNo) && TagChecked(p, n.value, r)
    ensures n.Ok? ==> n.value.finished == p.finished
  {
    var (p1, _, live) :- Attend(p, r);
    var (p2, stop) :- StepThread(p1, live, None);
    if !stop.Syscall? then Err(ScheduleDiverged(r.seqNo))
    else
      var p3 := p2.(lastRegs := Some(stop.regs));
      if live !in p3.threads || p3.threads[live].pending.None? then Err(ScheduleDiverged(r.seqNo))
      else
        var p4 := Inject(SetPending(p3, live, None), live, p3.threads[live].pending.value, data, ret);
        Ok(Advance(p4, r.seqNo, Some(live)))
  }

  function OnThreadSpawn(p: Rep, r: Record, childTid: Tid): (n: Outcome<Rep>)
    ensures n.Ok? ==> Progressed(p, n.value, r.seqNo) && TagChecked(p, n.value, r)
    ensures n.Ok? ==> n.value.finished == p.finished
  {
    var (p1, _, parent) :- Attend(p, r);
    var (p2, stop) :- StepWithSignal(p1, parent);
    if !stop.Spawn? then Err(ScheduleDiverged(r.seqNo))
    else
      var child := stop.child.live;
      match p2.tidmap.Bind(childTid, child)
      case Err(_) => Err(ScheduleDiverged(r.seqNo))
      case Ok(bound) =>
        var p3 := p2.(tidmap := bound, threads := p2.threads[child := NewThreadRt]);
        var p4 := if stop.how == ByVfork
                  then p3.(vforkSuspended := p3.vforkSuspended[child := parent]) else p3;
        Ok(Advance(p4, r.seqNo, Some(parent)))
  }

  function OnThreadExit(p: Rep, r: Record): (n: Outcome<Rep>)
    ensures n.Ok? ==> Progressed(p, n.value, r.seqNo) && TagChecked(p, n.value, r)
    ensures n.Ok? ==>
              (n.value.finished == p.finished || (n.value.finished.Some? && n.value.finished.value != StillRunning))
  {
    var (p1, tid, live) :- Attend(p, r);
    var (p2, stop) :- StepWithSignal(p1, live);
    if !IsDeath(stop) then Err(ScheduleDiverged(r.seqNo))
    else
      var p3 := p2.(threads := p2.threads - {live}, tidmap := p2.tidmap.Unbind(tid),
                    vforkSuspended := p2.vforkSuspended - {live});
      var p4 := Advance(p3, r.seqNo, Some(live));
      Ok(if live == p.leader then p4.(finished := Some(ExitOf(stop))) else p4)
  }

  function OnSignal(p: Rep, r: Record, signum: Signal): (n: Outcome<Rep>)
    ensures n.Ok? ==> Progressed(p, n.value, r.seqNo) && TagChecked(p, n.value, r)
    ensures n.Ok? ==> n.value.finished == p.finished
  {
    var (p1, _, live) :- Attend(p, r);
    var (p2, stop) :- StepWithSignal(p1, live);
    if !stop.Raise? || stop.sig != signum then Err(ScheduleDiverged(r.seqNo))
    else
      var p3 := if live in p2.threads
                then p2.(threads := p2.threads[live := p2.threads[live].(resumeSignal := Some(stop.sig))])
                else p2;
      Ok(Advance(p3, r.seqNo, Some(live)))
  }

  /** One turn of the drive loop: the record under the cursor is consumed. */
  function Consume(p: Rep, r: Record): (n: Outcome<Rep>)
    ensures n.Ok? ==> Progressed(p, n.value.(currentSeq := Some(r.seqNo)), r.seqNo)
    ensures n.Ok? ==> n.value.currentSeq == if r.event.body.Checkpoint? then p.currentSeq else Some(r.seqNo)
  {
    match r.event.body
    case Checkpoint => Ok(p.(cursor := p.cursor + 1, stepped := p.stepped + [None]))
    case SchedSwitch(next) => Ok(OnSchedSwitch(p, r, next))
    case SyscallEnter(nr, _) => OnSyscallEnter(p, r, nr)
    case SyscallExit(_, ret, data) => OnSyscallExit(p, r, ret, data)
    case ThreadSpawn(_, child) => OnThreadSpawn(p, r, child)
    case ThreadExit(_) => OnThreadExit(p, r)
    case Delivery(signum) => OnSignal(p, r, signum)
    case OtherKind => Err(UnexpectedRecord(r.seqNo))
  }

  // ---- What a failing record leaves behind ---------------------------------------------

  function AttendLeaves(p: Rep, r: Record): Rep {
    if r.event.tid.Some? && p.expectedTid.None? then p.(expectedTid := r.event.tid) else p
  }

  /** A process whose script has run out was still resumed; one that is gone was not. */
  function ThreadLeaves(p: Rep, live: Pid, sig: Option<Signal>): Rep {
    if live !in p.procs then p
    else p.(procs := p.procs[live := LiveProc([], p.procs[live].delivered + AsSeq(sig), p.procs[live].injected)])
  }

  function StepWithSignalLeaves(p: Rep, live: Pid): Rep {
    ThreadLeaves(SignalTaken(p, live), live, WaitingSignal(p, live))
  }

  /** The registers are read at any syscall stop a syscall record meets. */
  function RegsRead(p: Rep, r: Record, stop: Stop): Rep {
    if (r.event.body.SyscallEnter? || r.event.body.SyscallExit?) && stop.Syscall?
    then p.(lastRegs := Some(stop.regs)) else p
  }

  /** The state in which `Consume` fails: the tid was adopted, the thread has
      moved to a stop that does not fit and took its signal along, but the record is not consumed. */
  function ConsumeLeaves(p: Rep, r: Record): (n: Rep)
    ensures n.cursor == p.cursor && n.currentSeq == p.currentSeq && n.finished == p.finished && n.leader == p.leader
  {
    if r.event.body.Checkpoint? || r.event.body.SchedSwitch? || r.event.body.OtherKind? then p
    else match Attend(p, r)
      case Err(_) => AttendLeaves(p, r)
      case Ok((p1, _, live)) =>
        var exit := r.event.body.SyscallExit?;
        match if exit then StepThread(p1, live, None) else StepWithSignal(p1, live)
        case Err(_) => if exit then ThreadLeaves(p1, live, None) else StepWithSignalLeaves(p1, live)
        case Ok((p2, stop)) => RegsRead(p2, r, stop)
  }

  /** The state a drive ends in, whether it returns an outcome or an error. */
  function DriveLeaves(records: seq<Record>, p: Rep, stopAt: Option<nat>): Rep
    decreases |records| - p.cursor
  {
    if p.finished.Some? then p
    else if stopAt.Some? && p.currentSeq.Some? && p.currentSeq.value >= stopAt.value then p
    else if p.cursor >= |records| then p
    else match Consume(p, records[p.cursor])
      case Err(_) => ConsumeLeaves(p, records[p.cursor])
      case Ok(n) => DriveLeaves(records, n, stopAt)
  }

  /** Drive until the target seq is reached, the leader exits, or an error. */
  function Drive(records: seq<Record>, p: Rep, stopAt: Option<nat>): Outcome<(Rep, ExitOutcome)>
    decreases |records| - p.cursor
  {
    if p.finished.Some? then Ok((p, p.finished.value))
    else if stopAt.Some? && p.currentSeq.Some? && p.currentSeq.value >= stopAt.value then Ok((p, StillRunning))
    else if p.cursor >= |records| then Err(TraceExhausted)
    else match Consume(p, records[p.cursor])
      case Err(e) => Err(e)
      case Ok(n) => Drive(records, n, stopAt)
  }
}
