/** The schedule-enforcing replayer as it runs, updating its state in place. */
module MtReplayer {
  import opened Common
  import opened Injection
  import opened Scheduling
  import opened Recording
  import opened TidMapping
  import opened MtReplay

  class Replayer {
    const records: seq<Record>
    const leader: Pid
    const tids: TidTable
    var procs: map<Pid, LiveProc>
    var threads: map<Pid, ThreadRt>
    var vforkSuspended: map<Pid, Pid>
    var expectedTid: Option<Tid>
    var cursor: nat
    var currentSeq: Option<nat>
    var lastRegs: Option<SyscallRegs>
    var finished: Option<ExitOutcome>
    ghost var stepped: seq<Option<Pid>>

    ghost function View(): Rep
      reads this, tids
    {
      Rep(procs, leader, threads, tids.View(), vforkSuspended, expectedTid, cursor, currentSeq, lastRegs,
          finished, stepped)
    }

    constructor (records: seq<Record>, target: Proc)
      ensures View() == Launch(target) && this.records == records && fresh(tids)
    {
      this.records := records;
      leader := target.live;
      tids := new TidTable();
      procs := map[target.live := LiveProc(target.stops, [], [])];
      threads := map[target.live := NewThreadRt];
      vforkSuspended := map[];
      expectedTid, currentSeq, lastRegs, finished := None, None, None, None;
      cursor := 0;
      stepped := [];
    }

    /** Both checks of a record. */
    method AttendTo(r: Record) returns (outcome: Outcome<(Tid, Pid)>)
      modifies this`expectedTid, tids
      ensures match Attend(old(View()), r)
              case Ok(a) => outcome == Ok((a.1, a.2)) && View() == a.0
              case Err(e) => outcome == Err(e) && View() == AttendLeaves(old(View()), r)
    {
      if r.event.tid.None? {
        return Err(ScheduleDiverged(r.seqNo));
      }
      var tid := r.event.tid.value;
      if expectedTid.None? {
        expectedTid := Some(tid);
      } else if expectedTid.value != tid {
        return Err(ScheduleDiverged(r.seqNo));
      }
      if tid in tids.toLive {
        return Ok((tid, tids.toLive[tid]));
      }
      if tids.toLive != map[] {
        return Err(ScheduleDiverged(r.seqNo));
      }
      var bound := tids.Bind(tid, leader);
      if bound.Err? {
        return Err(ScheduleDiverged(r.seqNo));
      }
      return Ok((tid, leader));
    }

    /** Resume `live` until it reports something other than an exec. */
    method StepLive(live: Pid, sig: Option<Signal>) returns (outcome: Outcome<Stop>)
      modifies this`procs
      ensures match StepThread(old(View()), live, sig)
              case Ok(moved) => outcome == Ok(moved.1) && View() == moved.0
              case Err(e) => outcome == Err(e) && View() == ThreadLeaves(old(View()), live, sig)
    {
      if live !in procs {
        return Err(NoSuchProcess);
      }
      var proc := procs[live];
      var rest := proc.rest;
      while rest != [] && rest[0].Exec?
        invariant SkipExecs(rest) == SkipExecs(proc.rest)
        decreases |rest|
      {
        rest := rest[1..];
      }
      if rest == [] {
        procs := procs[live := LiveProc([], proc.delivered + AsSeq(sig), proc.injected)];
        return Err(NeverStops);
      }
      var moved := LiveProc(rest[1..], proc.delivered + AsSeq(sig), proc.injected);
      var stop := rest[0];
      if stop.Exit? || stop.Killed? {
        procs := procs - {live};
      } else if stop.Spawn? {
        procs := procs[live := moved][stop.child.live := LiveProc(stop.child.stops, [], [])];
      } else {
        procs := procs[live := moved];
      }
      return Ok(stop);
    }

    method StepHandingSignal(live: Pid) returns (outcome: Outcome<Stop>)
      modifies this`procs, this`threads
      ensures match StepWithSignal(old(View()), live)
              case Ok(moved) => outcome == Ok(moved.1) && View() == moved.0
              case Err(e) => outcome == Err(e) && View() == StepWithSignalLeaves(old(View()), live)
    {
      var sig := None;
      if live in threads {
        sig := threads[live].resumeSignal;
        threads := threads[live := threads[live].(resumeSignal := None)];
      }
      outcome := StepLive(live, sig);
    }

    method AdvancePast(seqNo: nat, ghost directed: Option<Pid>)
      modifies this`currentSeq, this`cursor, this`stepped
      ensures View() == Advance(old(View()), seqNo, directed)
    {
      currentSeq := Some(seqNo);
      cursor := cursor + 1;
      stepped := stepped + [directed];
    }

    method SyscallEntered(r: Record, nr: u64) returns (outcome: Outcome<()>)
      requires r.event.body.SyscallEnter?
      modifies this, tids
      ensures match OnSyscallEnter(old(View()), r, nr)
              case Ok(n) => outcome == Ok(()) && View() == n
              case Err(e) => outcome == Err(e) && View() == ConsumeLeaves(old(View()), r)
    {
      var who :- AttendTo(r);
      var live := who.1;
      var stop :- StepHandingSignal(live);
      if !stop.Syscall? {
        return Err(ScheduleDiverged(r.seqNo));
      }
      lastRegs := Some(stop.regs);
      if nr != stop.regs.nr {
        return Err(Diverged(r.seqNo));
      }
      if live in threads {
        threads := threads[live := threads[live].(pending := Some(Classify(stop.regs.nr, stop.regs.args)))];
      }
      AdvancePast(r.seqNo, Some(live));
      return Ok(());
    }

    method SyscallExited(r: Record, ret: i64, data: seq<byte>) returns (outcome: Outcome<()>)
      requires r.event.body.SyscallExit?
      modifies this, tids
      ensures match OnSyscallExit(old(View()), r, ret, data)
              case Ok(n) => outcome == Ok(()) && View() == n
              case Err(e) => outcome == Err(e) && View() == ConsumeLeaves(old(View()), r)
    {
      var who :- AttendTo(r);
      var live := who.1;
      var stop :- StepLive(live, None);
      if !stop.Syscall? {
        return Err(ScheduleDiverged(r.seqNo));
      }
      lastRegs := Some(stop.regs);
      if live !in threads || threads[live].pending.None? {
        return Err(ScheduleDiverged(r.seqNo));
      }
      var pending := threads[live].pending.value;
      threads := threads[live := threads[live].(pending := None)];
      if pending.suppressed && pending.injectAddr.Some? && live in procs {
        procs := procs[live := procs[live].(injected :=
                   procs[live].injected + [Injected(pending.injectAddr.value, data, ret)])];
      }
      AdvancePast(r.seqNo, Some(live));
      return Ok(());
    }

    method ThreadSpawned(r: Record, childTid: Tid) returns (outcome: Outcome<()>)
      requires r.event.body.ThreadSpawn?
      modifies this, tids
      ensures match OnThreadSpawn(old(View()), r, childTid)
              case Ok(n) => outcome == Ok(()) && View() == n
              case Err(e) => outcome == Err(e) && View() == ConsumeLeaves(old(View()), r)
    {
      var who :- AttendTo(r);
      var parent := who.1;
      var stop :- StepHandingSignal(parent);
      if !stop.Spawn? {
        return Err(ScheduleDiverged(r.seqNo));
      }
      var child := stop.child.live;
      var bound := tids.Bind(childTid, child);
      if bound.Err? {
        return Err(ScheduleDiverged(r.seqNo));
      }
      threads := threads[child := NewThreadRt];
      if stop.how == ByVfork {
        vforkSuspended := vforkSuspended[child := parent];
      }
      AdvancePast(r.seqNo, Some(parent));
      return Ok(());
    }

    method ThreadExited(r: Record) returns (outcome: Outcome<()>)
      requires r.event.body.ThreadExit?
      modifies this, tids
      ensures match OnThreadExit(old(View()), r)
              case Ok(n) => outcome == Ok(()) && View() == n
              case Err(e) => outcome == Err(e) && View() == ConsumeLeaves(old(View()), r)
    {
      var who :- AttendTo(r);
      var live := who.1;
      var stop :- StepHandingSignal(live);
      if !IsDeath(stop) {
        return Err(ScheduleDiverged(r.seqNo));
      }
      threads := threads - {live};
      tids.Unbind(who.0);
      vforkSuspended := vforkSuspended - {live};
      AdvancePast(r.seqNo, Some(live));
      if live == leader {
        finished := Some(ExitOf(stop));
      }
      return Ok(());
    }

    method SignalDelivered(r: Record, signum: Signal) returns (outcome: Outcome<()>)
      requires r.event.body.Delivery?
      modifies this, tids
      ensures match OnSignal(old(View()), r, signum)
              case Ok(n) => outcome == Ok(()) && View() == n
              case Err(e) => outcome == Err(e) && View() == ConsumeLeaves(old(View()), r)
    {
      var who :- AttendTo(r);
      var live := who.1;
      var stop :- StepHandingSignal(live);
      if !stop.Raise? || stop.sig != signum {
        return Err(ScheduleDiverged(r.seqNo));
      }
      if live in threads {
        threads := threads[live := threads[live].(resumeSignal := Some(stop.sig))];
      }
      AdvancePast(r.seqNo, Some(live));
      return Ok(());
    }

    method ConsumeRecord(r: Record) returns (outcome: Outcome<()>)
      modifies this, tids
      ensures match Consume(old(View()), r)
              case Ok(n) => outcome == Ok(()) && View() == n
              case Err(e) => outcome == Err(e) && View() == ConsumeLeaves(old(View()), r)
    {
      hide OnSyscallEnter, OnSyscallExit, OnThreadSpawn, OnThreadExit, OnSignal, Attend, StepThread, StepWithSignal;
      match r.event.body
      case Checkpoint =>
        cursor := cursor + 1;
        stepped := stepped + [None];
        outcome := Ok(());
      case SchedSwitch(next) =>
        expectedTid := Some(next);
        AdvancePast(r.seqNo, None);
        outcome := Ok(());
      case SyscallEnter(nr, _) => outcome := SyscallEntered(r, nr);
      case SyscallExit(_, ret, data) => outcome := SyscallExited(r, ret, data);
      case ThreadSpawn(_, child) => outcome := ThreadSpawned(r, child);
      case ThreadExit(_) => outcome := ThreadExited(r);
      case Delivery(signum) => outcome := SignalDelivered(r, signum);
      case OtherKind => outcome := Err(UnexpectedRecord(r.seqNo));
    }

    /** The drive loop. */
    method DriveTo(stopAt: Option<nat>) returns (outcome: Outcome<ExitOutcome>)
      modifies this, tids
      ensures match Drive(records, old(View()), stopAt)
              case Ok(d) => outcome == Ok(d.1) && View() == d.0
              case Err(e) => outcome == Err(e)
      ensures View() == DriveLeaves(records, old(View()), stopAt)
    {
      hide Consume, ConsumeLeaves;
      while true
        invariant Drive(records, View(), stopAt) == Drive(records, old(View()), stopAt)
        invariant DriveLeaves(records, View(), stopAt) == DriveLeaves(records, old(View()), stopAt)
        decreases |records| - cursor
      {
        if finished.Some? {
          return Ok(finished.value);
        }
        if stopAt.Some? && currentSeq.Some? && currentSeq.value >= stopAt.value {
          return Ok(StillRunning);
        }
        if cursor >= |records| {
          return Err(TraceExhausted);
        }
        var _ :- ConsumeRecord(records[cursor]);
      }
    }
  }
}
