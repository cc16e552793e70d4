/** The recorder's single-core scheduler: exactly one tracee runs at a time, and
    every instrumented point is appended to one totally ordered log. */
module Scheduling {
  import opened Common
  import opened Injection

  type Tid = nat
  type Signal = int

  const SIGSTOP: Signal := 19

  /** The decoded contents of a trace event. */
  datatype Body =
    | SyscallEnter(nr: u64, args: Args)
    | SyscallExit(exitNr: u64, ret: i64, data: seq<byte>)
    | SchedSwitch(next: Tid)
    | ThreadSpawn(parent: Tid, child: Tid)
    | ThreadExit(gone: Tid)
    | Delivery(signum: Signal)
    | Checkpoint
    | OtherKind

  datatype Event = Event(tid: Option<Tid>, body: Body)

  datatype PtraceEvent = Clone(child: Tid) | Fork(child: Tid) | Vfork(child: Tid) | OtherEvent

  /** What one `waitpid` reports; a syscall stop carries the tracee state read at it. */
  datatype Status =
    | PtraceSyscall(pid: Tid, regs: SyscallRegs, mem: Memory)
    | PtraceEventStop(pid: Tid, event: PtraceEvent)
    | Stopped(pid: Tid, sig: Signal)
    | Exited(pid: Tid, code: int)
    | Signaled(pid: Tid, sig: Signal)
    | Unhandled

  datatype Thread = Thread(pendingEnter: Option<SyscallRegs>, resumeSignal: Option<Signal>)

  const NewThread := Thread(None, None)

  datatype Sched = Sched(
    threads: map<Tid, Thread>,
    ready: seq<Tid>,
    running: Option<Tid>,
    lastScheduled: Option<Tid>,
    leader: Tid,
    leaderExit: Option<int>,
    threadsFollowed: nat,
    vforkPending: map<Tid, Tid>,
    log: seq<Event>)

  function Initial(leader: Tid): Sched {
    Sched(map[leader := NewThread], [leader], None, Some(leader), leader, None, 1, map[], [])
  }

  function Without(q: seq<Tid>, pid: Tid): (r: seq<Tid>)
    ensures pid !in r
    ensures forall t :: t in r <==> t in q && t != pid
  {
    if q == [] then [] else (if q[0] == pid then [] else [q[0]]) + Without(q[1..], pid)
  }

  lemma WithoutNext(q: seq<Tid>, i: nat, pid: Tid, kept: seq<Tid>)
    requires i < |q|
    ensures kept + Without(q[i..], pid) == (if q[i] == pid then kept else kept + [q[i]]) + Without(q[i + 1..], pid)
  {
    assert q[i..][1..] == q[i + 1..];
  }

  lemma WithoutEnds(q: seq<Tid>, pid: Tid)
    ensures [] + Without(q[0..], pid) == Without(q, pid) && Without(q[|q|..], pid) == []
  {
    assert q[0..] == q;
  }

  function Append(s: Sched, tid: Tid, body: Body): Sched {
    s.(log := s.log + [Event(Some(tid), body)])
  }

  function Requeue(s: Sched, pid: Tid): Sched {
    if pid in s.threads && pid !in s.ready then s.(ready := s.ready + [pid]) else s
  }

  function ClearRunning(s: Sched, pid: Tid): Sched {
    if s.running == Some(pid) then s.(running := None) else s
  }

  function RecordSchedSwitch(s: Sched, next: Tid): Sched {
    if s.lastScheduled == Some(next) then s
    else Append(s.(lastScheduled := Some(next)), next, SchedSwitch(next))
  }

  /** The signal a resumed thread is handed. */
  function ResumeSignal(s: Sched, pid: Tid): Option<Signal> {
    if pid in s.threads then s.threads[pid].resumeSignal else None
  }

  function ResumeNext(s: Sched): Sched {
    if s.ready == [] then s
    else
      var next := s.ready[0];
      var s1 := RecordSchedSwitch(s.(ready := s.ready[1..]), next);
      var s2 := if next in s1.threads
                then s1.(threads := s1.threads[next := s1.threads[next].(resumeSignal := None)])
                else s1;
      s2.(running := Some(next))
  }

  function OnSyscall(s: Sched, pid: Tid, regs: SyscallRegs, mem: Memory): Sched {
    var pending := if pid in s.threads then s.threads[pid].pendingEnter else None;
    match pending
    case None =>
      var s1 := Append(s, pid, SyscallEnter(regs.nr, regs.args));
      if pid in s1.threads
      then s1.(threads := s1.threads[pid := s1.threads[pid].(pendingEnter := Some(regs))])
      else s1
    case Some(enter) =>
      var s1 := s.(threads := s.threads[pid := s.threads[pid].(pendingEnter := None)]);
      Append(s1, pid, SyscallExit(enter.nr, regs.ret, CapturedData(enter, regs.ret, mem)))
  }

  function RegisterChild(s: Sched, pid: Tid): Sched {
    s.(threads := s.threads[pid := NewThread], threadsFollowed := s.threadsFollowed + 1)
  }

  function OnStopped(s: Sched, pid: Tid, sig: Signal): Sched {
    if pid !in s.threads then
      Requeue(RegisterChild(s, pid), pid)
    else
      var s1 := ClearRunning(s, pid);
      var s2 := if sig != SIGSTOP
                then var a := Append(s1, pid, Delivery(sig));
                     a.(threads := a.threads[pid := a.threads[pid].(resumeSignal := Some(sig))])
                else s1;
      Requeue(s2, pid)
  }

  function OnExit(s: Sched, pid: Tid, code: Option<int>): Sched {
    var s1 := ClearRunning(s, pid);
    var tracked := pid in s1.threads;
    var s2 := s1.(threads := s1.threads - {pid});
    var s3 := if tracked && s2.threadsFollowed > 1 then Append(s2, pid, ThreadExit(pid)) else s2;
    var s4 := s3.(ready := Without(s3.ready, pid));
    var s5 := if pid == s4.leader then s4.(leaderExit := code) else s4;
    if pid in s5.vforkPending
    then Requeue(s5.(vforkPending := s5.vforkPending - {pid}), s5.vforkPending[pid])
    else s5
  }

  function OnEvent(s: Sched, pid: Tid, event: PtraceEvent): Sched {
    var s1 := ClearRunning(s, pid);
    match event
    case OtherEvent => Requeue(s1, pid)
    case Vfork(child) =>
      var s2 := Append(s1, pid, ThreadSpawn(pid, child));
      s2.(vforkPending := s2.vforkPending[child := pid])
    case Clone(child) => Requeue(Append(s1, pid, ThreadSpawn(pid, child)), pid)
    case Fork(child) => Requeue(Append(s1, pid, ThreadSpawn(pid, child)), pid)
  }

  function Handle(s: Sched, status: Status): Sched {
    match status
    case PtraceSyscall(pid, regs, mem) => Requeue(OnSyscall(ClearRunning(s, pid), pid, regs, mem), pid)
    case PtraceEventStop(pid, event) => OnEvent(s, pid, event)
    case Stopped(pid, sig) => OnStopped(s, pid, sig)
    case Exited(pid, code) => OnExit(s, pid, Some(code))
    case Signaled(pid, _) => OnExit(s, pid, None)
    case Unhandled => s
  }

  /** The front half of a loop turn: hand the CPU on when nobody holds it. */
  function Dispatch(s: Sched): Sched {
    if s.running.None? then ResumeNext(s) else s
  }

  /** One turn of the scheduler loop around one reported stop. */
  function Turn(s: Sched, status: Status): Sched {
    Handle(Dispatch(s), status)
  }

  /** The loop over the stops the kernel reports; it ends when no thread is left. */
  function RunAll(s: Sched, stops: seq<Status>): Sched
    decreases |stops|
  {
    if stops == [] || s.threads == map[] then s
    else RunAll(Turn(s, stops[0]), stops[1..])
  }

  /** The scheduler object of the recorder, proved against the functions above. */
  class Scheduler {
    var threads: map<Tid, Thread>
    var ready: seq<Tid>
    var running: Option<Tid>
    var lastScheduled: Option<Tid>
    const leader: Tid
    var leaderExit: Option<int>
    var threadsFollowed: nat
    var vforkPending: map<Tid, Tid>
    var log: seq<Event>

    ghost function View(): Sched
      reads this
    {
      Sched(threads, ready, running, lastScheduled, leader, leaderExit, threadsFollowed, vforkPending, log)
    }

    constructor (leader: Tid)
      ensures View() == Initial(leader)
    {
      threads := map[leader := NewThread];
      ready := [leader];
      running := None;
      lastScheduled := Some(leader);
      this.leader := leader;
      leaderExit := None;
      threadsFollowed := 1;
      vforkPending := map[];
      log := [];
    }

    method AppendEvent(tid: Tid, body: Body)
      modifies this`log
      ensures View() == Append(old(View()), tid, body)
    {
      log := log + [Event(Some(tid), body)];
    }

    method RequeueThread(pid: Tid)
      modifies this`ready
      ensures View() == Requeue(old(View()), pid)
    {
      if pid in threads && pid !in ready {
        ready := ready + [pid];
      }
    }

    method ClearRunningThread(pid: Tid)
      modifies this`running
      ensures View() == ClearRunning(old(View()), pid)
    {
      if running == Some(pid) {
        running := None;
      }
    }

    /** `retain` on the ready queue, element by element. */
    method DropFromReady(pid: Tid)
      modifies this`ready
      ensures View() == old(View()).(ready := Without(old(ready), pid))
    {
      hide Without;
      var kept: seq<Tid>, q, i := [], ready, 0;
      WithoutEnds(q, pid);
      while i < |q|
        invariant 0 <= i <= |q| && ready == q
        invariant kept + Without(q[i..], pid) == Without(q, pid)
      {
        WithoutNext(q, i, pid, kept);
        if q[i] != pid {
          kept := kept + [q[i]];
        }
        i := i + 1;
      }
      assert kept + [] == kept;
      ready := kept;
    }

    method ResumeNextThread() returns (handed: Option<Signal>)
      modifies this
      ensures View() == ResumeNext(old(View()))
      ensures handed == if old(ready) == [] then None else ResumeSignal(old(View()), old(ready)[0])
    {
      handed := None;
      if ready == [] {
        return;
      }
      var next := ready[0];
      ready := ready[1..];
      if lastScheduled != Some(next) {
        lastScheduled := Some(next);
        AppendEvent(next, SchedSwitch(next));
      }
      if next in threads {
        handed := threads[next].resumeSignal;
        threads := threads[next := threads[next].(resumeSignal := None)];
      }
      running := Some(next);
    }

    method HandleSyscall(pid: Tid, regs: SyscallRegs, mem: Memory)
      modifies this
      ensures View() == OnSyscall(old(View()), pid, regs, mem)
    {
      var pending: Option<SyscallRegs> := None;
      if pid in threads {
        pending := threads[pid].pendingEnter;
        threads := threads[pid := threads[pid].(pendingEnter := None)];
      }
      match pending
      case None =>
        AppendEvent(pid, SyscallEnter(regs.nr, regs.args));
        if pid in threads {
          threads := threads[pid := threads[pid].(pendingEnter := Some(regs))];
        }
        assert threads == OnSyscall(old(View()), pid, regs, mem).threads;
      case Some(enter) =>
        AppendEvent(pid, SyscallExit(enter.nr, regs.ret, CapturedData(enter, regs.ret, mem)));
    }

    method HandleStopped(pid: Tid, sig: Signal)
      modifies this
      ensures View() == OnStopped(old(View()), pid, sig)
    {
      if pid !in threads {
        threads := threads[pid := NewThread];
        threadsFollowed := threadsFollowed + 1;
        RequeueThread(pid);
        return;
      }
      ClearRunningThread(pid);
      if sig != SIGSTOP {
        AppendEvent(pid, Delivery(sig));
        threads := threads[pid := threads[pid].(resumeSignal := Some(sig))];
      }
      RequeueThread(pid);
    }

    method HandleExit(pid: Tid, code: Option<int>)
      modifies this
      ensures View() == OnExit(old(View()), pid, code)
    {
      ClearRunningThread(pid);
      var tracked := pid in threads;
      threads := threads - {pid};
      if tracked && threadsFollowed > 1 {
        AppendEvent(pid, ThreadExit(pid));
      }
      DropFromReady(pid);
      if pid == leader {
        leaderExit := code;
      }
      if pid in vforkPending {
        var parent := vforkPending[pid];
        vforkPending := vforkPending - {pid};
        RequeueThread(parent);
      }
    }

    method HandleStatus(status: Status)
      modifies this
      ensures View() == Handle(old(View()), status)
    {
      match status
      case PtraceSyscall(pid, regs, mem) =>
        ClearRunningThread(pid);
        HandleSyscall(pid, regs, mem);
        RequeueThread(pid);
      case PtraceEventStop(pid, event) =>
        ClearRunningThread(pid);
        match event {
          case OtherEvent => RequeueThread(pid);
          case Vfork(child) =>
            AppendEvent(pid, ThreadSpawn(pid, child));
            vforkPending := vforkPending[child := pid];
          case Clone(child) =>
            AppendEvent(pid, ThreadSpawn(pid, child));
            RequeueThread(pid);
          case Fork(child) =>
            AppendEvent(pid, ThreadSpawn(pid, child));
            RequeueThread(pid);
        }
      case Stopped(pid, sig) => HandleStopped(pid, sig);
      case Exited(pid, code) => HandleExit(pid, Some(code));
      case Signaled(pid, _) => HandleExit(pid, None);
      case Unhandled =>
    }

    /** The scheduler loop over the stops `waitpid` reports, in order. */
    method Run(stops: seq<Status>)
      modifies this
      ensures View() == RunAll(old(View()), stops)
    {
      var i := 0;
      while i < |stops| && threads != map[]
        invariant 0 <= i <= |stops|
        invariant RunAll(View(), stops[i..]) == RunAll(old(View()), stops)
      {
        if running.None? {
          var _ := ResumeNextThread();
        }
        HandleStatus(stops[i]);
        i := i + 1;
      }
    }
  }
}
