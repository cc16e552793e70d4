/** What a recording run ends with, read off the stops the kernel reported. */
module RecorderOutcome {
  import opened Common
  import opened Scheduling

  ghost predicate Begins(status: Status, t: Tid) {
    status.Stopped? && status.pid == t
  }

  ghost predicate Dies(status: Status, t: Tid) {
    (status.Exited? || status.Signaled?) && status.pid == t
  }

  // ---- Who is tracked --------------------------------------------------------------------------

  /** Since stop `from` the thread has not died. */
  ghost predicate LivesOn(stops: seq<Status>, from: nat, t: Tid) {
    forall j :: from <= j < |stops| ==> !Dies(stops[j], t)
  }

  /** The thread has shown up, the leader at the start and any other by a first stop, and not died since. */
  ghost predicate Alive(leader: Tid, stops: seq<Status>, t: Tid) {
    (t == leader && LivesOn(stops, 0, t)) || exists i: nat :: ShownAt(stops, i, t)
  }

  ghost predicate ShownAt(stops: seq<Status>, i: nat, t: Tid) {
    i < |stops| && Begins(stops[i], t) && LivesOn(stops, i + 1, t)
  }

  lemma LivesOnStep(stops: seq<Status>, status: Status, from: nat, t: Tid)
    requires from <= |stops|
    ensures LivesOn(stops + [status], from, t) <==> LivesOn(stops, from, t) && !Dies(status, t)
  {
    var all := stops + [status];
    assert all[|stops|] == status && forall j :: 0 <= j < |stops| ==> all[j] == stops[j];
  }

  lemma AliveStep(leader: Tid, stops: seq<Status>, status: Status, t: Tid)
    ensures Alive(leader, stops + [status], t) <==> Begins(status, t) || (Alive(leader, stops, t) && !Dies(status, t))
  {
    hide LivesOn, ShownAt, Begins, Dies;
    var all := stops + [status];
    LivesOnStep(stops, status, 0, t);
    forall i: nat | i <= |stops|
      ensures ShownAt(all, i, t)
         <==> if i == |stops| then Begins(status, t) else ShownAt(stops, i, t) && !Dies(status, t)
    {
      ShownStep(stops, status, i, t);
    }
    if Begins(status, t) {
      assert ShownAt(all, |stops|, t);
    }
    if !Begins(status, t) && exists i: nat :: ShownAt(all, i, t) {
      var i: nat :| ShownAt(all, i, t);
      ShownInside(all, i, t);
      assert ShownAt(stops, i, t);
    }
    if !Dies(status, t) && exists i: nat :: ShownAt(stops, i, t) {
      var i: nat :| ShownAt(stops, i, t);
      ShownInside(stops, i, t);
      assert ShownAt(all, i, t);
    }
    BeginningIsNoDeath(status, t);
  }

  lemma BeginningIsNoDeath(status: Status, t: Tid)
    ensures Begins(status, t) ==> !Dies(status, t)
  {
  }

  lemma ShownInside(stops: seq<Status>, i: nat, t: Tid)
    requires ShownAt(stops, i, t)
    ensures i < |stops|
  {
  }

  lemma ShownStep(stops: seq<Status>, status: Status, i: nat, t: Tid)
    requires i <= |stops|
    ensures ShownAt(stops + [status], i, t)
       <==> if i == |stops| then Begins(status, t) else ShownAt(stops, i, t) && !Dies(status, t)
  {
    hide LivesOn, Begins, Dies;
    if i < |stops| {
      LivesOnStep(stops, status, i + 1, t);
    } else {
      NothingAfter(stops + [status], t);
    }
  }

  lemma NothingAfter(stops: seq<Status>, t: Tid)
    ensures LivesOn(stops, |stops|, t)
  {
  }

  // ---- The leader's exit code ---------------------------------------------------------------------

  /** The code of the leader's last death among these stops; none if it was killed or did not die. */
  ghost predicate LeaderEndedWith(leader: Tid, stops: seq<Status>, code: Option<int>) {
    (LivesOn(stops, 0, leader) && code == None) || exists i: nat :: DiedAt(stops, i, leader, code)
  }

  ghost predicate DiedAt(stops: seq<Status>, i: nat, t: Tid, code: Option<int>) {
    && i < |stops| && Dies(stops[i], t) && LivesOn(stops, i + 1, t)
    && code == if stops[i].Exited? then Some(stops[i].code) else None
  }

  lemma EndedStep(leader: Tid, stops: seq<Status>, status: Status, code: Option<int>)
    requires LeaderEndedWith(leader, stops, code)
    ensures LeaderEndedWith(leader, stops + [status],
                            if !Dies(status, leader) then code
                            else if status.Exited? then Some(status.code) else None)
  {
    hide LivesOn;
    var all := stops + [status];
    assert all[|stops|] == status;
    if Dies(status, leader) {
      NothingAfter(all, leader);
      assert DiedAt(all, |stops|, leader, if status.Exited? then Some(status.code) else None);
    } else if LivesOn(stops, 0, leader) && code == None {
      LivesOnStep(stops, status, 0, leader);
    } else {
      var i: nat :| DiedAt(stops, i, leader, code);
      LivesOnStep(stops, status, i + 1, leader);
      assert DiedAt(all, i, leader, code);
    }
  }

  // ---- How many were followed ------------------------------------------------------------------------

  /** One for the leader and one for each stop of a thread that was not tracked before it. */
  ghost function Followed(leader: Tid, stops: seq<Status>): nat {
    if stops == [] then 1
    else
      var init, last := stops[..|stops| - 1], stops[|stops| - 1];
      Followed(leader, init) + if last.Stopped? && !Alive(leader, init, last.pid) then 1 else 0
  }

  // ---- Whole runs --------------------------------------------------------------------------------------

  /** Before each of these stops some thread was still tracked. */
  ghost predicate AllHandled(leader: Tid, stops: seq<Status>) {
    forall k :: 0 <= k < |stops| ==> SomeAlive(leader, stops[..k])
  }

  ghost predicate SomeAlive(leader: Tid, stops: seq<Status>) {
    exists t: nat :: Alive(leader, stops, t)
  }

  ghost predicate Tells(leader: Tid, stops: seq<Status>, s: Sched) {
    && s.leader == leader
    && (forall t: nat :: t in s.threads <==> Alive(leader, stops, t))
    && LeaderEndedWith(leader, stops, s.leaderExit)
    && s.threadsFollowed == Followed(leader, stops)
  }

  /** What one turn does to the table, the exit code and the count. */
  lemma TurnTable(s: Sched, status: Status)
    ensures var n := Turn(s, status);
            && n.leader == s.leader
            && (forall t: nat :: t in n.threads <==> Begins(status, t) || (t in s.threads && !Dies(status, t)))
            && n.leaderExit == (if !Dies(status, s.leader) then s.leaderExit
                                else if status.Exited? then Some(status.code) else None)
            && n.threadsFollowed == s.threadsFollowed + if status.Stopped? && status.pid !in s.threads then 1 else 0
  {
    DispatchTable(s);
    var d := Dispatch(s);
    hide Dispatch, Requeue, Without, ClearRunning;
    RequeueKeeps();
    match status
    case PtraceSyscall(_, _, _) =>
    case PtraceEventStop(_, _) =>
    case Stopped(_, _) =>
    case Exited(pid, code) => ExitTable(d, pid, Some(code));
    case Signaled(pid, _) => ExitTable(d, pid, None);
    case Unhandled =>
  }

  lemma DispatchTable(s: Sched)
    ensures var d := Dispatch(s);
            && d.leader == s.leader && d.threads.Keys == s.threads.Keys && d.leaderExit == s.leaderExit
            && d.threadsFollowed == s.threadsFollowed
  {
  }

  lemma RequeueKeeps()
    ensures forall s, pid :: Requeue(s, pid) == s.(ready := Requeue(s, pid).ready)
    ensures forall s, pid :: ClearRunning(s, pid) == s.(running := ClearRunning(s, pid).running)
  {
  }

  lemma ExitTable(s: Sched, pid: Tid, code: Option<int>)
    ensures var n := OnExit(s, pid, code);
            && n.leader == s.leader && n.threads == s.threads - {pid} && n.threadsFollowed == s.threadsFollowed
            && n.leaderExit == if pid == s.leader then code else s.leaderExit
  {
    hide Requeue, ClearRunning, Without;
    RequeueKeeps();
  }

  lemma TellsStep(leader: Tid, stops: seq<Status>, s: Sched, status: Status)
    requires Tells(leader, stops, s)
    ensures Tells(leader, stops + [status], Turn(s, status))
  {
    TurnTable(s, status);
    hide Turn, Alive, LeaderEndedWith, Begins, Dies;
    var n := Turn(s, status);
    forall t: nat ensures t in n.threads <==> Alive(leader, stops + [status], t) {
      AliveStep(leader, stops, status, t);
    }
    EndedStep(leader, stops, status, s.leaderExit);
    assert (stops + [status])[..|stops|] == stops;
  }

  lemma {:induction false} RunOnward(s: Sched, stops: seq<Status>, done: seq<Status>, leader: Tid) returns (n: nat)
    requires Tells(leader, done, s)
    ensures n <= |stops| && Tells(leader, done + stops[..n], RunAll(s, stops))
    ensures n < |stops| ==> RunAll(s, stops).threads == map[]
    ensures forall k :: 0 <= k < n ==> SomeAlive(leader, done + stops[..k])
    decreases |stops|
  {
    hide Turn, Tells, SomeAlive;
    n := 0;
    assert done + stops[..0] == done;
    if stops != [] && s.threads != map[] {
      SomeoneTracked(leader, done, s);
      TellsStep(leader, done, s, stops[0]);
      var more := RunOnward(Turn(s, stops[0]), stops[1..], done + [stops[0]], leader);
      n := more + 1;
      forall k | 0 <= k <= n ensures k > 0 ==> done + stops[..k] == done + [stops[0]] + stops[1..][..k - 1] {
      }
    }
  }

  lemma SomeoneTracked(leader: Tid, stops: seq<Status>, s: Sched)
    requires Tells(leader, stops, s) && s.threads != map[]
    ensures SomeAlive(leader, stops)
  {
    hide Alive;
    var t :| t in s.threads;
  }

  lemma AtTheStart(leader: Tid)
    ensures Tells(leader, [], Initial(leader))
  {
    assert LivesOn([], 0, leader);
  }

  /** A recording handles stops as long as a thread is tracked, and no longer. It then tracks exactly
      the threads alive by those stops, reports the code of the leader's last death, and
      has counted every thread it took up. */
  lemma RunTells(leader: Tid, stops: seq<Status>) returns (n: nat)
    ensures n <= |stops| && AllHandled(leader, stops[..n])
    ensures n < |stops| ==> !SomeAlive(leader, stops[..n])
    ensures Tells(leader, stops[..n], RunAll(Initial(leader), stops))
  {
    hide Alive, LeaderEndedWith, RunAll, Initial;
    AtTheStart(leader);
    n := RunOnward(Initial(leader), stops, [], leader);
    assert [] + stops[..n] == stops[..n];
    forall k | 0 <= k < n ensures SomeAlive(leader, stops[..n][..k]) {
      assert stops[..n][..k] == stops[..k] == [] + stops[..k];
    }
  }
}
