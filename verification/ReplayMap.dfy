/** What multi-threaded replay keeps on any log at all, and which logs it can accept. */
module ReplayMap {
  import opened Common
  import opened Injection
  import opened Scheduling
  import opened SchedulerProperties
  import opened Recording
  import opened TidMapping
  import opened MtReplay
  import opened Simulation

  /** No record has resumed a thread yet. */
  ghost predicate Untouched(p: Rep) {
    forall i :: 0 <= i < |p.stepped| ==> p.stepped[i].None?
  }

  /** The halves of the table are inverse, and its live side is the tracked
      thread set, but for the leader before the first record that resumes a
      thread. So the branch that binds the leader is open exactly until then. */
  ghost predicate MapOk(p: Rep) {
    && p.tidmap.Inverse()
    && (p.finished.None? ==>
          if Untouched(p) then p.tidmap == EmptyTidMap && p.threads.Keys == {p.leader}
          else p.tidmap.toRecorded.Keys == p.threads.Keys && p.leader in p.threads)
  }

  /** The kernel gives a new process a pid that no tracked process holds. */
  ghost predicate KernelFresh(p: Rep) {
    forall live :: live in p.procs ==>
      var rest := SkipExecs(p.procs[live].rest);
      rest != [] && rest[0].Spawn? ==> rest[0].child.live !in p.threads
  }

  ghost predicate KernelFreshAlong(p: Rep, events: seq<Event>)
    decreases |events|
  {
    KernelFresh(p)
    && (events == [] || p.finished.Some?
        || match Consume(p, Record(p.cursor, events[0]))
           case Err(_) => true
           case Ok(n) => KernelFreshAlong(n, events[1..]))
  }

  /** After the two checks of a record the named thread is bound and tracked. */
  lemma AttendBinds(p: Rep, r: Record, p1: Rep, tid: Tid, live: Pid)
    requires MapOk(p) && p.finished.None? && Attend(p, r) == Ok((p1, tid, live))
    ensures p1 == p.(expectedTid := Some(tid), tidmap := p1.tidmap) && r.event.tid == Some(tid)
    ensures p1.tidmap.Inverse() && p1.tidmap.toRecorded.Keys == p.threads.Keys && p.leader in p.threads
    ensures tid in p1.tidmap.toLive && p1.tidmap.toLive[tid] == live && live in p.threads
    ensures Untouched(p) <==> p.tidmap.toLive == map[]
  {
    if !Untouched(p) {
      assert p.leader in p.tidmap.toRecorded;
      assert p.tidmap.toRecorded[p.leader] in p.tidmap.toLive;
    }
  }

  lemma Touched(p: Rep, live: Pid)
    requires p.stepped != [] && p.stepped[|p.stepped| - 1] == Some(live)
    ensures !Untouched(p)
  {
  }

  lemma StepKeeps(p: Rep, live: Pid, sig: Option<Signal>, n: Rep, stop: Stop)
    requires StepThread(p, live, sig) == Ok((n, stop))
    ensures n == p.(procs := n.procs)
    ensures live in p.procs && var rest := SkipExecs(p.procs[live].rest); rest != [] && rest[0] == stop
  {
  }

  /** Records that neither create nor remove a thread. */
  lemma MapSteady(p: Rep, n: Rep, p1: Rep, live: Pid)
    requires p.finished.None? && n.finished.None? && n.leader == p.leader && p.leader in p.threads
    requires n.stepped == p.stepped + [Some(live)] && n.threads.Keys == p.threads.Keys
    requires n.tidmap == p1.tidmap && p1.tidmap.Inverse() && p1.tidmap.toRecorded.Keys == p.threads.Keys
    ensures MapOk(n)
  {
    Touched(n, live);
  }

  lemma ConsumeKeepsMapSteady(p: Rep, r: Record, n: Rep)
    requires MapOk(p) && p.finished.None? && Consume(p, r) == Ok(n)
    requires r.event.body.SyscallEnter? || r.event.body.SyscallExit? || r.event.body.Delivery?
    ensures MapOk(n)
  {
    hide Attend, StepThread, MapOk;
    var (p1, tid, live) := Attend(p, r).value;
    AttendBinds(p, r, p1, tid, live);
    if r.event.body.SyscallExit? {
      var (p2, stop) := StepThread(p1, live, None).value;
      StepKeeps(p1, live, None, p2, stop);
    } else {
      var p1' := p1.(threads := p1.threads[live := p1.threads[live].(resumeSignal := None)]);
      var (p2, stop) := StepThread(p1', live, WaitingSignal(p1, live)).value;
      StepKeeps(p1', live, WaitingSignal(p1, live), p2, stop);
    }
    MapSteady(p, n, p1, live);
  }

  lemma ConsumeKeepsMapSpawn(p: Rep, r: Record, n: Rep)
    requires MapOk(p) && p.finished.None? && KernelFresh(p) && Consume(p, r) == Ok(n)
    requires r.event.body.ThreadSpawn?
    ensures MapOk(n)
  {
    hide Attend, StepThread, MapOk;
    var (p1, tid, live) := Attend(p, r).value;
    AttendBinds(p, r, p1, tid, live);
    var p1' := p1.(threads := p1.threads[live := p1.threads[live].(resumeSignal := None)]);
    var (p2, stop) := StepThread(p1', live, WaitingSignal(p1, live)).value;
    StepKeeps(p1', live, WaitingSignal(p1, live), p2, stop);
    assert stop.child.live !in p.threads;
    var bound := p1.tidmap.Bind(r.event.body.child, stop.child.live);
    assert bound.Ok? && n.tidmap == bound.value;
    Touched(n, live);
    MapGrown(p1, n, stop.child.live);
  }

  lemma MapGrown(p1: Rep, n: Rep, child: Pid)
    requires !Untouched(n) && n.leader == p1.leader && p1.leader in p1.threads
    requires n.tidmap.Inverse() && n.tidmap.toRecorded.Keys == p1.threads.Keys + {child}
    requires n.threads.Keys == p1.threads.Keys + {child}
    ensures MapOk(n)
  {
  }

  lemma ConsumeKeepsMapExit(p: Rep, r: Record, n: Rep)
    requires MapOk(p) && p.finished.None? && Consume(p, r) == Ok(n) && r.event.body.ThreadExit?
    ensures MapOk(n)
  {
    hide Attend, StepThread, MapOk;
    var (p1, tid, live) := Attend(p, r).value;
    AttendBinds(p, r, p1, tid, live);
    var p1' := p1.(threads := p1.threads[live := p1.threads[live].(resumeSignal := None)]);
    var (p2, stop) := StepThread(p1', live, WaitingSignal(p1, live)).value;
    StepKeeps(p1', live, WaitingSignal(p1, live), p2, stop);
    Touched(n, live);
    MapShrunk(p1, n, tid, live);
  }

  lemma MapShrunk(p1: Rep, n: Rep, tid: Tid, live: Pid)
    requires !Untouched(n) && n.leader == p1.leader && p1.leader in p1.threads
    requires p1.tidmap.Inverse() && p1.tidmap.toRecorded.Keys == p1.threads.Keys
    requires tid in p1.tidmap.toLive && p1.tidmap.toLive[tid] == live && n.tidmap == p1.tidmap.Unbind(tid)
    requires n.threads.Keys == p1.threads.Keys - {live} && (n.finished.None? ==> live != n.leader)
    ensures MapOk(n)
  {
  }

  lemma UntouchedExtends(p: Rep, n: Rep)
    requires n.stepped == p.stepped + [None]
    ensures Untouched(n) <==> Untouched(p)
  {
    if Untouched(n) {
      forall i | 0 <= i < |p.stepped| ensures p.stepped[i].None? {
        assert n.stepped[i] == p.stepped[i];
      }
    }
  }

  /** The table stays right across every record replay accepts, on any log,
      recorded tids and live pids being reused freely after their holder exits. */
  lemma ConsumeKeepsMap(p: Rep, r: Record, n: Rep)
    requires MapOk(p) && p.finished.None? && KernelFresh(p) && Consume(p, r) == Ok(n)
    ensures MapOk(n)
  {
    hide Attend, StepThread, OnSyscallEnter, OnSyscallExit, OnThreadSpawn, OnThreadExit, OnSignal;
    match r.event.body
    case Checkpoint => UntouchedExtends(p, n);
    case SchedSwitch(_) => UntouchedExtends(p, n);
    case SyscallEnter(_, _) => ConsumeKeepsMapSteady(p, r, n);
    case SyscallExit(_, _, _) => ConsumeKeepsMapSteady(p, r, n);
    case Delivery(_) => ConsumeKeepsMapSteady(p, r, n);
    case ThreadSpawn(_, _) => ConsumeKeepsMapSpawn(p, r, n);
    case ThreadExit(_) => ConsumeKeepsMapExit(p, r, n);
    case OtherKind =>
  }

  lemma {:induction false} MapOkAlong(p: Rep, events: seq<Event>, q: Rep)
    requires MapOk(p) && KernelFreshAlong(p, events) && Feed(p, events) == Ok(q)
    ensures MapOk(q)
    decreases |events|
  {
    hide Consume, MapOk, KernelFresh;
    if events != [] && p.finished.None? {
      var n := Consume(p, Record(p.cursor, events[0])).value;
      ConsumeKeepsMap(p, Record(p.cursor, events[0]), n);
      MapOkAlong(n, events[1..], q);
    }
  }

  /** From launch on, in every state any log can drive replay to. */
  lemma MapOkAlways(leader: Proc, events: seq<Event>, q: Rep)
    requires KernelFreshAlong(Launch(leader), events) && Feed(Launch(leader), events) == Ok(q)
    ensures MapOk(q)
  {
    MapOkAlong(Launch(leader), events, q);
  }

  // ---- Which logs can be replayed ---------------------------------------------

  lemma ConsumeChecksTag(p: Rep, r: Record, n: Rep)
    requires Consume(p, r) == Ok(n)
    ensures match r.event.body
            case SchedSwitch(next) => n.expectedTid == Some(next)
            case Checkpoint => n.expectedTid == p.expectedTid
            case _ => TagChecked(p, n, r)
  {
    hide OnSyscallEnter, OnSyscallExit, OnThreadSpawn, OnThreadExit, OnSignal;
  }

  /** Whatever replay consumes, up to the record that finishes it, has tags that
      follow its switches; unfinished, it has consumed everything. */
  lemma {:induction false} AcceptedTagsFollow(p: Rep, events: seq<Event>, q: Rep)
    requires Feed(p, events) == Ok(q)
    ensures p.cursor <= q.cursor <= p.cursor + |events|
    ensures TagsFollow(p.expectedTid, events[..q.cursor - p.cursor])
    ensures q.finished.None? ==> q.cursor == p.cursor + |events|
    decreases |events|
  {
    hide Consume;
    if events != [] && p.finished.None? {
      var n := Consume(p, Record(p.cursor, events[0])).value;
      ConsumeChecksTag(p, Record(p.cursor, events[0]), n);
      AcceptedTagsFollow(n, events[1..], q);
      var used := events[..q.cursor - p.cursor];
      assert used[0] == events[0] && used[1..] == events[1..][..q.cursor - n.cursor];
    }
  }

  lemma {:induction false} TagsFollowPrefix(expected: Option<Tid>, log: seq<Event>, k: nat)
    requires TagsFollow(expected, log) && k <= |log|
    ensures TagsFollow(expected, log[..k])
    decreases |log|
  {
    if k > 0 {
      assert log[..k][0] == log[0] && log[..k][1..] == log[1..][..k - 1];
      var next := match log[0].body
        case SchedSwitch(t) => Some(t)
        case Checkpoint => expected
        case _ => log[0].tid;
      TagsFollowPrefix(next, log[1..], k - 1);
    }
  }

  lemma {:induction false} TrailPrefix(s: Sched, stops: seq<Status>, j: nat)
    requires j <= |stops|
    ensures Trail(s, stops[..j]) <= Trail(s, stops)
    decreases j
  {
    hide Dispatch, Handle, Recorded, Switched;
    if j > 0 && s.threads != map[] {
      assert stops[..j][0] == stops[0] && stops[..j][1..] == stops[1..][..j - 1];
      TrailPrefix(Turn(s, stops[0]), stops[1..], j - 1);
    }
  }

  lemma {:induction false} TrailUnmarked(s: Sched, stops: seq<Status>)
    ensures Trail(s, stops) != [] ==> !Trail(s, stops)[0].body.Checkpoint?
    decreases |stops|
  {
    hide Dispatch, Handle;
    if stops != [] && s.threads != map[] {
      TrailUnmarked(Turn(s, stops[0]), stops[1..]);
    }
  }

  /** The first record is the leader's, or a switch. */
  ghost predicate LeaderFirst(t: Tid, log: seq<Event>) {
    log == [] || log[0].body.SchedSwitch? || log[0].tid == Some(t)
  }

  /** Replay adopts whatever thread the first record names. */
  lemma AdoptsFirst(t: Tid, log: seq<Event>)
    requires TagsFollow(None, log) && (log != [] ==> !log[0].body.Checkpoint?)
    ensures TagsFollow(Some(t), log) <==> LeaderFirst(t, log)
  {
  }

  /** The hypothesis that stops come from the resumed thread cannot be dropped. Of
      any recording at all, the stops whose records a replay from launch consumed
      (all of them, if it has not finished) came from the resumed thread exactly
      when the first record is the leader's. */
  lemma ReplayableOnlyIfScheduled(t: Tid, stops: seq<Status>, leader: Proc, q: Rep, j: nat)
    requires Feed(Launch(leader), RunAll(Initial(t), stops).log) == Ok(q) && j <= |stops|
    requires |RunAll(Initial(t), stops[..j]).log| <= q.cursor || q.finished.None?
    ensures q.finished.None? ==> q.cursor == |RunAll(Initial(t), stops).log|
    ensures OnlyScheduledReport(Initial(t), stops[..j]) <==> LeaderFirst(t, RunAll(Initial(t), stops[..j]).log)
  {
    hide Feed, TagsFollow, Trail, OnlyScheduledReport, RunAll, LeaderFirst;
    var s := Initial(t);
    RunLogs(s, stops);
    RunLogs(s, stops[..j]);
    var log, part := Trail(s, stops), Trail(s, stops[..j]);
    assert [] + log == log && [] + part == part;
    TrailPrefix(s, stops, j);
    AcceptedTagsFollow(Launch(leader), log, q);
    TagsFollowPrefix(None, log[..q.cursor], |part|);
    assert log[..q.cursor][..|part|] == part;
    TrailUnmarked(s, stops[..j]);
    AdoptsFirst(t, part);
    TagsFollowExactly(s, stops[..j]);
  }

  /** So the first record matters: a stray thread that reports before the leader has
      logged anything is taken for the leader, and replayed without complaint. */
  lemma StrayLeaderIsAdopted(regs: SyscallRegs, mem: Memory)
    ensures var stops := [Stopped(2, SIGSTOP), PtraceSyscall(2, regs, mem)];
            var fed := Feed(Launch(Proc(1, 100, [Syscall(regs, mem)])), RunAll(Initial(1), stops).log);
            fed.Ok? && fed.value.finished.None? && !OnlyScheduledReport(Initial(1), stops)
  {
    var stops := [Stopped(2, SIGSTOP), PtraceSyscall(2, regs, mem)];
    StrayLog(regs, mem);
    var log := RunAll(Initial(1), stops).log;
    StrayFed(regs, mem, Event(Some(2), SyscallEnter(regs.nr, regs.args)));
    var q := Feed(Launch(Proc(1, 100, [Syscall(regs, mem)])), log).value;
    hide RunAll, Feed, OnlyScheduledReport;
    assert stops[..2] == stops;
    ReplayableOnlyIfScheduled(1, stops, Proc(1, 100, [Syscall(regs, mem)]), q, 2);
  }

  lemma StrayLog(regs: SyscallRegs, mem: Memory)
    ensures RunAll(Initial(1), [Stopped(2, SIGSTOP), PtraceSyscall(2, regs, mem)]).log
         == [Event(Some(2), SyscallEnter(regs.nr, regs.args))]
  {
    var stops := [Stopped(2, SIGSTOP), PtraceSyscall(2, regs, mem)];
    var s0 := Initial(1);
    var s1 := Turn(s0, stops[0]);
    assert s1.log == [] && s1.running == Some(1) && 2 in s1.threads && s1.threads[2] == NewThread;
    var s2 := Turn(s1, stops[1]);
    assert s2.log == [Event(Some(2), SyscallEnter(regs.nr, regs.args))];
    assert 1 in s0.threads && stops[1..][0] == stops[1] && stops[1..][1..] == [];
    assert RunAll(s1, stops[1..]) == RunAll(s2, []);
  }

  lemma StrayFed(regs: SyscallRegs, mem: Memory, e: Event)
    requires e == Event(Some(2), SyscallEnter(regs.nr, regs.args))
    ensures var fed := Feed(Launch(Proc(1, 100, [Syscall(regs, mem)])), [e]); fed.Ok? && fed.value.finished.None?
  {
    var p := Launch(Proc(1, 100, [Syscall(regs, mem)]));
    AttendFirst(p, 2, Record(0, e));
    var p1 := p.(expectedTid := Some(2), tidmap := LeaderOnlyMap(2, 100));
    assert SkipExecs([Syscall(regs, mem)]) == [Syscall(regs, mem)] + [];
    ConsumeEnter(p, Record(0, e), p1, 2, 100, Syscall(regs, mem), []);
    hide Consume;
    FeedOne(p, e);
  }

  /** A sibling killed while it is stopped: thread 1 clones thread 2, thread 2 is
      seen, and is killed while thread 1 runs. */
  function SiblingKilled(): seq<Status> {
    [PtraceEventStop(1, Clone(2)), Stopped(2, SIGSTOP), Signaled(2, 9)]
  }

  /** That recording is rejected by every replay, whatever its threads do. */
  lemma SiblingKilledIsRejected(leader: Proc)
    ensures RunAll(Initial(1), SiblingKilled()).log
         == [Event(Some(1), ThreadSpawn(1, 2)), Event(Some(2), ThreadExit(2))]
    ensures Feed(Launch(leader), RunAll(Initial(1), SiblingKilled()).log).Err?
  {
    SiblingKilledLog();
    SecondTagRejected(leader, RunAll(Initial(1), SiblingKilled()).log);
  }

  lemma SiblingKilledLog()
    ensures RunAll(Initial(1), SiblingKilled()).log
         == [Event(Some(1), ThreadSpawn(1, 2)), Event(Some(2), ThreadExit(2))]
  {
    hide Turn;
    var stops := SiblingKilled();
    assert stops[1..][1..] == stops[2..] && stops[2..][1..] == [];
    var s0 := Initial(1);
    var s1 := CloneTurn();
    var s2 := SeenTurn(s1);
    var s3 := KilledTurn(s2);
    assert 1 in s1.threads && 1 in s2.threads && stops[1..][0] == stops[1] && stops[2..][0] == stops[2];
    assert RunAll(s2, stops[2..]) == RunAll(s3, []);
    assert RunAll(s1, stops[1..]) == RunAll(s2, stops[2..]);
    assert RunAll(s0, stops) == RunAll(s1, stops[1..]);
  }

  lemma CloneTurn() returns (s: Sched)
    ensures s == Turn(Initial(1), PtraceEventStop(1, Clone(2)))
    ensures s.log == [Event(Some(1), ThreadSpawn(1, 2))] && s.ready == [1]
    ensures s.threads == map[1 := NewThread] && s.lastScheduled == Some(1) && s.running == None
    ensures s.threadsFollowed == 1 && s.leader == 1 && s.vforkPending == map[]
  {
    s := Turn(Initial(1), PtraceEventStop(1, Clone(2)));
  }

  lemma SeenTurn(s: Sched) returns (n: Sched)
    requires s.ready == [1] && s.threads == map[1 := NewThread] && s.lastScheduled == Some(1) && s.running == None
    requires s.threadsFollowed == 1 && s.leader == 1 && s.vforkPending == map[]
    ensures n == Turn(s, Stopped(2, SIGSTOP)) && n.log == s.log && n.running == Some(1) && n.ready == [2]
    ensures n.threadsFollowed == 2 && n.threads.Keys == {1, 2} && n.leader == 1 && n.vforkPending == map[]
  {
    n := Turn(s, Stopped(2, SIGSTOP));
  }

  lemma KilledTurn(s: Sched) returns (n: Sched)
    requires s.running == Some(1) && s.ready == [2] && s.threadsFollowed == 2 && s.threads.Keys == {1, 2}
    requires s.leader == 1 && s.vforkPending == map[]
    ensures n == Turn(s, Signaled(2, 9)) && n.log == s.log + [Event(Some(2), ThreadExit(2))]
  {
    n := Turn(s, Signaled(2, 9));
  }

  lemma SecondTagRejected(leader: Proc, log: seq<Event>)
    requires log == [Event(Some(1), ThreadSpawn(1, 2)), Event(Some(2), ThreadExit(2))]
    ensures Feed(Launch(leader), log).Err?
  {
    hide Consume;
    var p := Launch(leader);
    match Consume(p, Record(0, log[0]))
    case Err(_) =>
    case Ok(n) =>
      ConsumeChecksTag(p, Record(0, log[0]), n);
      SpawnGoesOn(p, Record(0, log[0]), n);
      if Feed(n, log[1..]).Ok? {
        var q := Consume(n, Record(n.cursor, log[1])).value;
        ConsumeChecksTag(n, Record(n.cursor, log[1]), q);
      }
  }

  lemma SpawnGoesOn(p: Rep, r: Record, n: Rep)
    requires Consume(p, r) == Ok(n) && r.event.body.ThreadSpawn?
    ensures n.finished == p.finished
  {
  }
}
