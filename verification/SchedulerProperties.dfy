/** What every run of the scheduler keeps, whatever stops the kernel reports. */
module SchedulerProperties {
  import opened Common
  import opened Scheduling
  import Injection

  // ---- Bounded waiting -------------------------------------------------

  /** The threads handed the CPU over a run, in order. */
  ghost function Resumed(s: Sched, stops: seq<Status>): seq<Tid>
    decreases |stops|
  {
    if stops == [] || s.threads == map[] then []
    else
      var first := if s.running.None? && s.ready != [] then [s.ready[0]] else [];
      first + Resumed(Turn(s, stops[0]), stops[1..])
  }

  ghost predicate IsExitOf(status: Status, t: Tid) {
    (status.Exited? || status.Signaled?) && status.pid == t
  }

  lemma {:induction false} WithoutKeepsPlace(q: seq<Tid>, pid: Tid, t: Tid, k: nat) returns (k': nat)
    requires k < |q| && q[k] == t && t != pid
    ensures k' <= k && k' < |Without(q, pid)| && Without(q, pid)[k'] == t
  {
    if k == 0 {
      k' := 0;
    } else {
      var r := WithoutKeepsPlace(q[1..], pid, t, k - 1);
      k' := if q[0] == pid then r else r + 1;
    }
  }

  lemma RequeueKeepsPlace(s: Sched, pid: Tid, t: Tid, k: nat)
    requires k < |s.ready| && s.ready[k] == t
    ensures k < |Requeue(s, pid).ready| && Requeue(s, pid).ready[k] == t
  {
  }

  lemma ExitKeepsPlace(s: Sched, pid: Tid, code: Option<int>, t: Tid, k: nat) returns (k': nat)
    requires k < |s.ready| && s.ready[k] == t && t != pid
    ensures k' <= k && k' < |OnExit(s, pid, code).ready| && OnExit(s, pid, code).ready[k'] == t
  {
    k' := WithoutKeepsPlace(s.ready, pid, t, k);
    var before := OnExit(s.(vforkPending := map[]), pid, code);
    assert before.ready == Without(s.ready, pid);
    if pid in s.vforkPending {
      RequeueKeepsPlace(before, s.vforkPending[pid], t, k');
      assert OnExit(s, pid, code).ready == Requeue(before, s.vforkPending[pid]).ready;
    }
  }

  /** Only its own exit takes a queued thread off the queue; nothing overtakes it. */
  lemma HandleKeepsPlace(s: Sched, status: Status, t: Tid, k: nat) returns (k': nat)
    requires k < |s.ready| && s.ready[k] == t && !IsExitOf(status, t)
    ensures k' <= k && k' < |Handle(s, status).ready| && Handle(s, status).ready[k'] == t
  {
    k' := k;
    match status
    case PtraceSyscall(pid, regs, mem) =>
      RequeueKeepsPlace(OnSyscall(ClearRunning(s, pid), pid, regs, mem), pid, t, k);
    case PtraceEventStop(pid, event) =>
    case Stopped(pid, sig) =>
    case Exited(pid, code) => k' := ExitKeepsPlace(s, pid, Some(code), t, k);
    case Signaled(pid, _) => k' := ExitKeepsPlace(s, pid, None, t, k);
    case Unhandled =>
  }

  /** A thread at position `k` of the ready queue is among the next `k + 1`
      threads resumed, unless it exits first. */
  lemma {:induction false} BoundedWaiting(s: Sched, stops: seq<Status>, t: Tid, k: nat)
    requires k < |s.ready| && s.ready[k] == t
    requires forall i :: 0 <= i < |stops| ==> !IsExitOf(stops[i], t)
    requires k < |Resumed(s, stops)|
    ensures t in Resumed(s, stops)[..k + 1]
    decreases |stops|
  {
    hide Handle;
    var d := Dispatch(s);
    var next := Turn(s, stops[0]);
    var later := Resumed(next, stops[1..]);
    if s.running.None? {
      assert Resumed(s, stops) == [s.ready[0]] + later;
      if k == 0 {
        assert Resumed(s, stops)[0] == t;
      } else {
        assert d.ready[k - 1] == t;
        var k' := HandleKeepsPlace(d, stops[0], t, k - 1);
        BoundedWaiting(next, stops[1..], t, k');
        var i :| 0 <= i < k' + 1 && later[i] == t;
        assert Resumed(s, stops)[i + 1] == t;
      }
    } else {
      assert Resumed(s, stops) == later;
      var k' := HandleKeepsPlace(s, stops[0], t, k);
      BoundedWaiting(next, stops[1..], t, k');
    }
  }

  // ---- Which replay driver a log selects ---------------------------------

  predicate IsLifecycle(e: Event) {
    e.body.SchedSwitch? || e.body.ThreadSpawn? || e.body.ThreadExit?
  }

  /** Whether a log carries a thread schedule replay must enforce. */
  predicate IsMultithreaded(log: seq<Event>) {
    exists i :: 0 <= i < |log| && IsLifecycle(log[i])
  }

  ghost predicate IsSpawn(status: Status) {
    status.PtraceEventStop? && !status.event.OtherEvent?
  }

  /** The record a handled stop leaves behind, if any. */
  ghost function Recorded(s: Sched, status: Status): seq<Event> {
    match status
    case PtraceSyscall(pid, regs, mem) =>
      if pid in s.threads && s.threads[pid].pendingEnter.Some? then
        var enter := s.threads[pid].pendingEnter.value;
        [Event(Some(pid), SyscallExit(enter.nr, regs.ret, Injection.CapturedData(enter, regs.ret, mem)))]
      else
        [Event(Some(pid), SyscallEnter(regs.nr, regs.args))]
    case PtraceEventStop(pid, event) =>
      if event.OtherEvent? then [] else [Event(Some(pid), ThreadSpawn(pid, event.child))]
    case Stopped(pid, sig) =>
      if pid in s.threads && sig != SIGSTOP then [Event(Some(pid), Delivery(sig))] else []
    case Exited(pid, _) => ExitRecord(s, pid)
    case Signaled(pid, _) => ExitRecord(s, pid)
    case Unhandled => []
  }

  ghost function ExitRecord(s: Sched, pid: Tid): seq<Event> {
    if pid in s.threads && s.threadsFollowed > 1 then [Event(Some(pid), ThreadExit(pid))] else []
  }

  lemma ExitLogs(s: Sched, pid: Tid, code: Option<int>)
    ensures OnExit(s, pid, code).log == s.log + ExitRecord(s, pid)
    ensures OnExit(s, pid, code).lastScheduled == s.lastScheduled
  {
  }

  lemma HandleLogs(s: Sched, status: Status)
    ensures Handle(s, status).log == s.log + Recorded(s, status)
    ensures Handle(s, status).lastScheduled == s.lastScheduled
  {
    match status
    case PtraceSyscall(pid, regs, mem) =>
    case PtraceEventStop(pid, event) =>
    case Stopped(pid, sig) =>
    case Exited(pid, code) => ExitLogs(s, pid, Some(code)); hide OnExit;
    case Signaled(pid, _) => ExitLogs(s, pid, None); hide OnExit;
    case Unhandled =>
  }

  ghost function Switched(s: Sched): seq<Event> {
    if s.running.None? && s.ready != [] && s.lastScheduled != Some(s.ready[0])
    then [Event(Some(s.ready[0]), SchedSwitch(s.ready[0]))]
    else []
  }

  lemma DispatchLogs(s: Sched)
    ensures Dispatch(s).log == s.log + Switched(s)
    ensures Dispatch(s).lastScheduled
         == if s.running.None? && s.ready != [] then Some(s.ready[0]) else s.lastScheduled
  {
  }

  lemma TurnLogs(s: Sched, status: Status)
    ensures Turn(s, status).log == s.log + (Switched(s) + Recorded(Dispatch(s), status))
  {
    DispatchLogs(s);
    HandleLogs(Dispatch(s), status);
  }

  /** Everything a run appends to the log. */
  ghost function Trail(s: Sched, stops: seq<Status>): seq<Event>
    decreases |stops|
  {
    if stops == [] || s.threads == map[] then []
    else Switched(s) + (Recorded(Dispatch(s), stops[0]) + Trail(Turn(s, stops[0]), stops[1..]))
  }

  lemma {:induction false} RunLogs(s: Sched, stops: seq<Status>)
    ensures RunAll(s, stops).log == s.log + Trail(s, stops)
    decreases |stops|
  {
    hide Handle, Dispatch;
    if stops != [] && s.threads != map[] {
      TurnLogs(s, stops[0]);
      RunLogs(Turn(s, stops[0]), stops[1..]);
    }
  }

  ghost predicate LeaderOnly(s: Sched) {
    && s.threads.Keys <= {s.leader}
    && (forall t :: t in s.ready ==> t == s.leader)
    && s.lastScheduled == Some(s.leader)
    && s.threadsFollowed == 1
    && s.vforkPending == map[]
    && !IsMultithreaded(s.log)
  }

  ghost predicate SoloStop(status: Status, leader: Tid) {
    status.Unhandled? || (status.pid == leader && !IsSpawn(status))
  }

  lemma SoloDispatch(s: Sched)
    requires LeaderOnly(s)
    ensures LeaderOnly(Dispatch(s)) && Dispatch(s).threads.Keys == s.threads.Keys
    ensures Dispatch(s).leader == s.leader
  {
    DispatchLogs(s);
    if s.running.None? && s.ready != [] {
      assert s.ready[0] in s.ready;
      assert forall t :: t in s.ready[1..] ==> t in s.ready;
    }
  }

  lemma SoloHandleLog(s: Sched, status: Status)
    requires LeaderOnly(s) && s.leader in s.threads && SoloStop(status, s.leader)
    ensures !IsMultithreaded(Handle(s, status).log) && Handle(s, status).lastScheduled == s.lastScheduled
  {
    HandleLogs(s, status);
    hide Handle;
  }

  lemma SoloHandle(s: Sched, status: Status)
    requires LeaderOnly(s) && s.leader in s.threads && SoloStop(status, s.leader)
    ensures LeaderOnly(Handle(s, status)) && Handle(s, status).leader == s.leader
  {
    SoloHandleLog(s, status);
    hide IsMultithreaded;
    var n := Handle(s, status);
    match status
    case PtraceSyscall(pid, regs, mem) => assert n.threads.Keys <= {s.leader};
    case PtraceEventStop(pid, event) =>
    case Stopped(pid, sig) => assert n.threads.Keys <= {s.leader};
    case Exited(pid, _) => assert n.ready == Without(s.ready, pid);
    case Signaled(pid, _) => assert n.ready == Without(s.ready, pid);
    case Unhandled =>
  }

  /** A run in which only the leader ever reports and nothing is spawned logs no
      lifecycle record, so its trace stays with the single-tracee driver. */
  lemma {:induction false} SoloRunStaysSingleThreaded(s: Sched, stops: seq<Status>)
    requires LeaderOnly(s)
    requires forall i :: 0 <= i < |stops| ==> SoloStop(stops[i], s.leader)
    ensures !IsMultithreaded(RunAll(s, stops).log)
    decreases |stops|
  {
    if stops != [] && s.threads != map[] {
      assert s.leader in s.threads;
      SoloDispatch(s);
      SoloHandle(Dispatch(s), stops[0]);
      SoloRunStaysSingleThreaded(Turn(s, stops[0]), stops[1..]);
    }
  }

  /** So a recording of a process that never spawns is single-threaded. */
  lemma SoloRecorderRun(leader: Tid, stops: seq<Status>)
    requires forall i :: 0 <= i < |stops| ==> SoloStop(stops[i], leader)
    ensures !IsMultithreaded(RunAll(Initial(leader), stops).log)
  {
    assert LeaderOnly(Initial(leader));
    SoloRunStaysSingleThreaded(Initial(leader), stops);
  }

  /** Once a spawn is handled the log is multi-threaded for good. */
  lemma {:induction false} SpawnSelectsSchedule(s: Sched, stops: seq<Status>, rest: seq<Status>)
    requires RunAll(s, stops).threads != map[]
    requires rest != [] && IsSpawn(rest[0])
    ensures IsMultithreaded(RunAll(s, stops + rest).log)
    decreases |stops|
  {
    if stops == [] {
      assert stops + rest == rest;
      var next := Turn(s, rest[0]);
      RunLogs(next, rest[1..]);
      TurnLogs(s, rest[0]);
      assert IsLifecycle(next.log[|next.log| - 1]);
      assert IsLifecycle(RunAll(next, rest[1..]).log[|next.log| - 1]);
    } else {
      assert (stops + rest)[1..] == stops[1..] + rest;
      SpawnSelectsSchedule(Turn(s, stops[0]), stops[1..], rest);
    }
  }

  // ---- When the log's tags follow the schedule ----------------------------

  /** The tag check a replayer makes along a log: a switch names the next
      thread, and every other record must be tagged with the thread named last. */
  ghost predicate TagsFollow(expected: Option<Tid>, log: seq<Event>)
    decreases |log|
  {
    if log == [] then true
    else match log[0].body
      case SchedSwitch(next) => TagsFollow(Some(next), log[1..])
      case Checkpoint => TagsFollow(expected, log[1..])
      case _ =>
        && log[0].tid.Some?
        && (expected.None? || expected == log[0].tid)
        && TagsFollow(log[0].tid, log[1..])
  }

  /** Every stop that leaves a record comes from the thread scheduled last. */
  ghost predicate OnlyScheduledReport(s: Sched, stops: seq<Status>)
    decreases |stops|
  {
    if stops == [] || s.threads == map[] then true
    else
      var d := Dispatch(s);
      && (Recorded(d, stops[0]) != [] ==> d.lastScheduled == Some(stops[0].pid))
      && OnlyScheduledReport(Turn(s, stops[0]), stops[1..])
  }

  lemma {:induction false} TagsFollowAppend(expected: Option<Tid>, a: seq<Event>, b: seq<Event>)
    requires |a| <= 1
    ensures a == [] ==> TagsFollow(expected, a + b) == TagsFollow(expected, b)
    ensures a != [] && a[0].body.SchedSwitch? ==>
              TagsFollow(expected, a + b) == TagsFollow(Some(a[0].body.next), b)
    ensures a != [] && !a[0].body.SchedSwitch? && !a[0].body.Checkpoint? ==>
              TagsFollow(expected, a + b)
              == (a[0].tid.Some? && (expected.None? || expected == a[0].tid) && TagsFollow(a[0].tid, b))
  {
    if a == [] {
      assert a + b == b;
    } else {
      assert (a + b)[0] == a[0] && (a + b)[1..] == b;
    }
  }

  lemma TagsFollowTurn(s: Sched, status: Status, tail: seq<Event>)
    requires s.lastScheduled.Some?
    ensures TagsFollow(s.lastScheduled, Switched(s) + (Recorded(Dispatch(s), status) + tail))
       <==> (Recorded(Dispatch(s), status) != [] ==> Dispatch(s).lastScheduled == Some(status.pid))
            && TagsFollow(Turn(s, status).lastScheduled, tail)
  {
    var d := Dispatch(s);
    var added := Recorded(d, status);
    DispatchLogs(s);
    HandleLogs(d, status);
    TagsFollowAppend(s.lastScheduled, Switched(s), added + tail);
    TagsFollowAppend(d.lastScheduled, added, tail);
  }

  /** The log's tags follow the recorded schedule exactly when every logged stop
      came from the thread that had been resumed. (A scheduler has scheduled its
      leader from the start, so `lastScheduled` is never empty.) */
  lemma {:induction false} TagsFollowExactly(s: Sched, stops: seq<Status>)
    requires s.lastScheduled.Some?
    ensures RunAll(s, stops).log == s.log + Trail(s, stops)
    ensures TagsFollow(s.lastScheduled, Trail(s, stops)) <==> OnlyScheduledReport(s, stops)
    decreases |stops|
  {
    RunLogs(s, stops);
    if stops != [] && s.threads != map[] {
      var next := Turn(s, stops[0]);
      DispatchLogs(s);
      HandleLogs(Dispatch(s), stops[0]);
      TagsFollowTurn(s, stops[0], Trail(next, stops[1..]));
      TagsFollowExactly(next, stops[1..]);
    }
  }
}
