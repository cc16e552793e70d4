/** When replay of a recording finishes, and the recordings for which it does not. */
module Completion {
  import opened Common
  import opened Injection
  import opened Scheduling
  import opened SchedulerProperties
  import opened Recording
  import opened MtReplay
  import opened Simulation
  import opened Conservation

  /** The recording is sound so far, and its leader is alive and tracked. */
  ghost predicate LeaderOn(r: Rec, leader: Proc) {
    && Inv(r) && Scripted(r) && r.sched.leader == leader.rec && r.early != Some(leader.rec)
    && leader.rec in r.alive && leader.rec in r.sched.threads && r.alive[leader.rec].proc == leader
  }

  lemma LeaderOnStart(leader: Proc)
    requires Grammar(leader.stops, false)
    ensures LeaderOn(Start(leader), leader)
  {
    InvStart(leader);
    NewbornOnScript(leader, 0);
  }

  lemma LeaderOnResume(r: Rec, leader: Proc)
    requires LeaderOn(r, leader)
    ensures LeaderOn(Resume(r), leader) && Resume(r).sched.threadsFollowed == r.sched.threadsFollowed
  {
    hide Inv, Scripted;
    InvResume(r);
    ScriptedResume(r);
  }

  lemma LeaderOnReport(r: Rec, leader: Proc, choice: Choice)
    requires LeaderOn(r, leader) && Enabled(r, choice) && !LeaderDies(r, choice)
    ensures LeaderOn(Report(r, choice), leader)
    ensures Report(r, choice).sched.threadsFollowed >= r.sched.threadsFollowed
  {
    hide Inv, Scripted, Handle;
    InvReport(r, choice);
    ScriptedReport(r, choice);
    match choice
    case FirstStop(t, sig) =>
      RunningUnqueued(r, t);
      FirstStopShape(r.sched, t, sig);
    case Preempt =>
      var t := r.sched.running.value;
      RunningBound(r, t);
      RunningUnqueued(r, t);
      SignalShape(r.sched, t, SIGSTOP);
    case Own => OwnKeepsLeader(r, leader);
  }

  lemma OwnKeepsLeader(r: Rec, leader: Proc)
    requires LeaderOn(r, leader) && Enabled(r, Own) && !LeaderDies(r, Own)
    ensures var n := Report(r, Own);
            && leader.rec in n.alive && leader.rec in n.sched.threads && n.alive[leader.rec].proc == leader
            && n.sched.leader == leader.rec && n.early != Some(leader.rec)
            && n.sched.threadsFollowed >= r.sched.threadsFollowed
  {
    hide Inv, Scripted, Handle, Recorded;
    var t := r.sched.running.value;
    RunningBound(r, t);
    InvThread(r, t);
    StoppingUnqueued(r, t);
    var stop := r.alive[t].rest[0];
    match stop {
      case Syscall(regs, mem) => SyscallShape(r.sched, t, regs, mem);
      case Spawn(child, _) =>
        SpawnReport(r, t);
        EventShape(r.sched, t, StatusOf(t, stop).event);
      case Exec => EventShape(r.sched, t, OtherEvent);
      case Raise(sig) => SignalShape(r.sched, t, sig);
      case Exit(_) => DeathShape(r, t);
      case Killed(_) => DeathShape(r, t);
    }
  }

  lemma DeathShape(r: Rec, t: Tid)
    requires Stopping(r, t) && IsDeath(r.alive[t].rest[0]) && Enabled(r, Own)
    ensures Report(r, Own).sched.threadsFollowed == r.sched.threadsFollowed
    ensures Report(r, Own).sched.threads == r.sched.threads - {t} && Report(r, Own).alive == r.alive - {t}
    ensures Report(r, Own).sched.leader == r.sched.leader && Report(r, Own).early == r.early
  {
    DeathReport(r, t);
    hide Handle, Recorded, ThreadOk, Identities;
    StoppingUnqueued(r, t);
    ExitShape(r.sched, t, StatusOf(t, r.alive[t].rest[0]));
  }

  ghost predicate LeaderDies(r: Rec, choice: Choice)
    requires Enabled(r, choice)
  {
    choice.Own? && r.sched.running == Some(r.sched.leader) && IsDeath(r.alive[r.sched.leader].rest[0])
  }

  /** A turn logs the leader's exit exactly when replay would end with it. */
  lemma ExitInTurn(r: Rec, leader: Proc, choice: Choice)
    requires LeaderOn(r, leader) && Enabled(Resume(r), choice)
    ensures LogsExitOf(Switched(r.sched) + Added(Resume(r), choice), leader.rec) <==> Ending(Resume(r), choice).Some?
  {
    hide Inv, Scripted, Resume;
    LeaderOnResume(r, leader);
    var m := Resume(r);
    assert !LogsExitOf(Switched(r.sched), leader.rec);
    if choice.Own? {
      RunningBound(m, m.sched.running.value);
    }
  }

  /** The last stop of a dying leader is the last of its script. */
  lemma LastOfScript(r: Rec, leader: Proc)
    requires LeaderOn(r, leader) && r.alive[leader.rec].rest != [] && IsDeath(r.alive[leader.rec].rest[0])
    ensures leader.stops != [] && leader.stops[|leader.stops| - 1] == r.alive[leader.rec].rest[0]
  {
    hide Placed, VforksOk, Identities, EarlyOk, DigestOf;
    var tr := r.alive[leader.rec];
    assert ThreadOk(r.sched, leader.rec, tr) && OnScript(PendingOf(r.sched, leader.rec), tr);
    NextStop(tr.rest, r.sched.threads[leader.rec].pendingEnter.Some?);
    assert |tr.rest| == 1;
  }

  /** How a run bears on its leader. */
  ghost predicate EndsWith(r: Rec, choices: seq<Choice>, leader: Proc)
    requires Admissible(r, choices)
  {
    var n, exit := RecordAll(r, choices), LoggedExit(r, choices);
    && |r.sched.log| <= |n.sched.log|
    && (exit.Some? <==> LogsExitOf(n.sched.log[|r.sched.log|..], leader.rec))
    && (exit.Some? ==> leader.stops != [] && IsDeath(leader.stops[|leader.stops| - 1])
                       && exit == Some(ExitOf(leader.stops[|leader.stops| - 1])))
    && (exit.Some? ==> n.sched.threadsFollowed > 1)
    && (exit.None? && n.sched.threads == map[] ==> n.sched.threadsFollowed == 1)
  }

  lemma InLog(a: seq<Event>, b: seq<Event>, t: Tid)
    ensures LogsExitOf(a + b, t) <==> LogsExitOf(a, t) || LogsExitOf(b, t)
  {
  }

  lemma {:induction false} FollowedGrows(r: Rec, choices: seq<Choice>)
    requires Inv(r) && Admissible(r, choices)
    ensures RecordAll(r, choices).sched.threadsFollowed >= r.sched.threadsFollowed
    decreases |choices|
  {
    hide Inv, Enabled;
    if choices != [] {
      TurnShape(r, choices[0]);
      HandleFollows(Resume(r), choices[0]);
      hide Resume, Report;
      FollowedGrows(Report(Resume(r), choices[0]), choices[1..]);
    }
  }

  lemma HandleFollows(r: Rec, choice: Choice)
    requires Enabled(r, choice)
    ensures Report(r, choice).sched.threadsFollowed >= r.sched.threadsFollowed
  {
    match choice
    case Own => FollowsNoFewer(r.sched, StatusOf(r.sched.running.value, r.alive[r.sched.running.value].rest[0]));
    case Preempt => FollowsNoFewer(r.sched, Stopped(r.sched.running.value, SIGSTOP));
    case FirstStop(t, sig) => FollowsNoFewer(r.sched, Stopped(t, sig));
    hide Handle;
  }

  lemma FollowsNoFewer(s: Sched, status: Status)
    ensures Handle(s, status).threadsFollowed >= s.threadsFollowed
  {
  }

  lemma {:induction false} RunEndsWith(r: Rec, choices: seq<Choice>, leader: Proc)
    requires LeaderOn(r, leader) && Admissible(r, choices)
    ensures EndsWith(r, choices, leader)
    decreases |choices|
  {
    hide LeaderOn, Resume, Report, Enabled, Switched, Added, LogsExitOf, Ending, LeaderDies, Inv;
    LeaderParts(r, leader);
    LogGrows(r, choices);
    if choices == [] {
      assert RecordAll(r, choices).sched.log[|r.sched.log|..] == [];
      NoExitYet(leader.rec);
    } else {
      LeaderOnResume(r, leader);
      var m, n := Resume(r), Report(Resume(r), choices[0]);
      TurnShape(r, choices[0]);
      LogGrows(n, choices[1..]);
      var end := RecordAll(r, choices);
      assert end.sched.log[|r.sched.log|..]
          == (Switched(r.sched) + Added(m, choices[0])) + end.sched.log[|n.sched.log|..];
      InLog(Switched(r.sched) + Added(m, choices[0]), end.sched.log[|n.sched.log|..], leader.rec);
      ExitInTurn(r, leader, choices[0]);
      if LeaderDies(m, choices[0]) {
        EndingAtDeath(m, leader, choices[0]);
        assert choices[0] == Own;
        LeaderDeath(m, leader);
        FollowedGrows(n, choices[1..]);
        if n.sched.threads == map[] {
          assert choices[1..] == [];
          assert LoggedExit(n, choices[1..]) == None && end == n;
          assert end.sched.log[|n.sched.log|..] == [];
          NoExitYet(leader.rec);
        }
      } else {
        EndingAtDeath(m, leader, choices[0]);
        LeaderOnReport(m, leader, choices[0]);
        RunEndsWith(n, choices[1..], leader);
      }
    }
  }

  lemma NoExitYet(t: Tid)
    ensures !LogsExitOf([], t)
  {
  }

  lemma LeaderParts(r: Rec, leader: Proc)
    requires LeaderOn(r, leader)
    ensures Inv(r) && r.sched.threads != map[]
  {
  }

  lemma EndingAtDeath(r: Rec, leader: Proc, choice: Choice)
    requires LeaderOn(r, leader) && Enabled(r, choice)
    ensures Ending(r, choice).Some? <==> LeaderDies(r, choice) && r.sched.threadsFollowed > 1
    ensures LeaderDies(r, choice) ==>
              && choice.Own? && leader.stops != [] && IsDeath(leader.stops[|leader.stops| - 1])
              && (Ending(r, choice).Some? ==> Ending(r, choice) == Some(ExitOf(leader.stops[|leader.stops| - 1])))
  {
    hide Inv, Scripted;
    if LeaderDies(r, choice) {
      LastOfScript(r, leader);
    }
  }

  lemma LeaderDeath(r: Rec, leader: Proc)
    requires LeaderOn(r, leader) && Enabled(r, Own) && LeaderDies(r, Own)
    ensures Report(r, Own).sched.threadsFollowed == r.sched.threadsFollowed >= 1
    ensures r.sched.threadsFollowed == 1 ==> Report(r, Own).sched.threads == map[]
  {
    hide Inv, Scripted, Report;
    InvThread(r, leader.rec);
    FollowsOne(r);
    DeathShape(r, leader.rec);
    DeathReport(r, leader.rec);
  }

  /** When replay finishes. Of every recording it can follow, replay finishes exactly
      when the leader's exit is in the log, and its outcome is that of the leader's last
      stop. A recording that is over is finished by its replay exactly when
      the recorder saw more than one thread; if it saw only the leader, replay
      runs out of records. */
  lemma ReplayFinishesExactly(leader: Proc, choices: seq<Choice>, q: Rep)
    requires Grammar(leader.stops, false) && Admissible(Start(leader), choices)
    requires Feed(Launch(leader), RecordAll(Start(leader), choices).sched.log) == Ok(q)
    ensures var r := RecordAll(Start(leader), choices);
            && (q.finished.Some? <==> LogsExitOf(r.sched.log, leader.rec))
            && (q.finished.Some? ==> leader.stops != [] && IsDeath(leader.stops[|leader.stops| - 1])
                                     && q.finished == Some(ExitOf(leader.stops[|leader.stops| - 1])))
            && (r.sched.threads == map[] ==> (q.finished.Some? <==> r.sched.threadsFollowed > 1))
            && Drive(Records(r.sched.log), Launch(leader), None)
               == (if q.finished.Some? then Ok((q, q.finished.value)) else Err(TraceExhausted))
  {
    hide Grammar, Admissible, RecordAll, Feed, Drive, LoggedExit, LogsExitOf, Undisturbed, LeaderOn;
    LeaderOnStart(leader);
    RunEndsWith(Start(leader), choices, leader);
    var q' := RecordReplay(leader, choices);
    var log := RecordAll(Start(leader), choices).sched.log;
    assert log[|Start(leader).sched.log|..] == log;
  }

  // ---- Two recordings that replay does not finish ------------------------------------------

  function Forker(): Proc {
    Proc(1, 100, [Spawn(Proc(2, 200, [Exit(0)]), ByFork), Exit(7)])
  }

  /** A leader that forks and exits before its child is seen. The recording is over,
      the child abandoned, and the log multi-threaded but without the leader's
      exit: replay runs out of records. */
  lemma UnseenChildIsAbandoned()
    ensures Grammar(Forker().stops, false) && Admissible(Start(Forker()), [Own, Own])
    ensures var r := RecordAll(Start(Forker()), [Own, Own]);
            && r.sched.threads == map[] && r.sched.leaderExit == Some(7) && r.alive.Keys == {2}
            && r.sched.log == [Event(Some(1), ThreadSpawn(1, 2))] && IsMultithreaded(r.sched.log)
            && Drive(Records(r.sched.log), Launch(Forker()), None) == Err(TraceExhausted)
  {
    ForkerGrammar();
    var r1 := SpawnTurn(Forker());
    var r2 := AbandonTurn(r1);
    hide Resume, Report, Grammar, Drive, Feed;
    var r0 := Start(Forker());
    assert [Own, Own][1..] == [Own] && [Own][1..] == [];
    assert Admissible(r2, []) && Admissible(r1, [Own]) && Admissible(r0, [Own, Own]);
    assert RecordAll(r1, [Own]) == r2 && RecordAll(r0, [Own, Own]) == r2;
    assert IsMultithreaded(r2.sched.log) by { assert IsLifecycle(r2.sched.log[0]); }
    CalmRun(r0, r1);
    var q := RecordReplay(Forker(), [Own, Own]);
    ReplayFinishesExactly(Forker(), [Own, Own], q);
  }

  lemma CalmRun(r0: Rec, r1: Rec)
    requires Admissible(r0, [Own, Own]) && r1 == Report(Resume(r0), Own)
    requires Enabled(Resume(r1), Own) && Admissible(r1, [Own])
    requires !Resume(r0).alive[Resume(r0).sched.running.value].held
    requires !Resume(r1).alive[Resume(r1).sched.running.value].held
    ensures Undisturbed(r0, [Own, Own])
  {
    hide Resume, Report, Ending;
    assert [Own, Own][1..] == [Own] && [Own][1..] == [];
    assert Admissible(Report(Resume(r1), Own), []);
    assert FirstDisturbance(Report(Resume(r1), Own), []).None?;
    assert FirstDisturbance(r1, [Own]).None?;
  }

  lemma ForkerGrammar()
    ensures Grammar(Forker().stops, false)
  {
    var stops := Forker().stops;
    assert Grammar([Exit(0)], false) by { assert [Exit(0)][1..] == []; }
    assert stops[1..] == [Exit(7)] && [Exit(7)][1..] == [];
    assert Grammar([Exit(7)], false);
    assert StopOk(stops[0], false);
  }

  /** After a first turn in which thread 1 spawned thread 2. */
  ghost predicate Spawned12(r: Rec, leader: Proc) {
    && r.sched.log == [Event(Some(1), ThreadSpawn(1, 2))] && r.sched.ready == [1] && r.sched.running.None?
    && r.sched.threads == map[1 := NewThread] && r.sched.lastScheduled == Some(1) && r.sched.leader == 1
    && r.sched.threadsFollowed == 1 && r.sched.vforkPending == map[] && r.early.None?
    && r.alive.Keys == {1, 2} && leader.stops != [] && r.alive[1].rest == leader.stops[1..] && !r.alive[1].held
  }

  lemma SpawnTurn(leader: Proc) returns (r: Rec)
    requires leader.rec == 1 && leader.stops != [] && leader.stops[0].Spawn? && leader.stops[0].how != ByVfork
    requires leader.stops[0].child.rec == 2 && leader.stops[0].child.live != leader.live
    ensures var r0 := Start(leader);
            && Enabled(Resume(r0), Own) && r == Report(Resume(r0), Own) && r0.sched.threads != map[]
            && !Resume(r0).alive[Resume(r0).sched.running.value].held && Ending(Resume(r0), Own).None?
            && !Disturbs(Resume(r0), Own)
    ensures Spawned12(r, leader)
  {
    StartResumed(leader);
    assert 1 in Start(leader).sched.threads;
    hide Resume, Report;
    var m := Resume(Start(leader));
    SpawnReported(m, leader);
    r := Report(m, Own);
  }

  lemma StartResumed(leader: Proc)
    ensures var r0 := Start(leader);
            Resume(r0) == r0.(sched := r0.sched.(ready := [], running := Some(leader.rec)))
  {
    var r0 := Start(leader);
    var t := leader.rec;
    assert r0.sched.ready[1..] == [] && r0.directed + [] == r0.directed;
    assert r0.sched.threads[t := NewThread] == r0.sched.threads;
    assert Newborn(leader, 0).delivered + AsSeq<Signal>(None) == [];
    assert r0.alive[t := Newborn(leader, 0)] == r0.alive;
  }

  lemma SpawnReported(m: Rec, leader: Proc)
    requires leader.rec == 1 && leader.stops != [] && leader.stops[0].Spawn? && leader.stops[0].how != ByVfork
    requires leader.stops[0].child.rec == 2 && leader.stops[0].child.live != leader.live
    requires var r0 := Start(leader); m == r0.(sched := r0.sched.(ready := [], running := Some(leader.rec)))
    ensures Enabled(m, Own) && Spawned12(Report(m, Own), leader) && Ending(m, Own).None? && !m.alive[1].held
  {
    assert m.alive[1] == Newborn(leader, 0) && Fresh(m, leader.stops[0].child);
    EventShape(m.sched, 1, StatusOf(1, leader.stops[0]).event);
    hide Handle;
    assert Report(m, Own).alive.Keys == {1, 2};
  }

  lemma AbandonTurn(r: Rec) returns (n: Rec)
    requires Spawned12(r, Forker())
    ensures Enabled(Resume(r), Own) && n == Report(Resume(r), Own)
    ensures r.sched.threads != map[] && !Resume(r).alive[Resume(r).sched.running.value].held
    ensures n.sched.threads == map[] && n.sched.leaderExit == Some(7) && n.alive.Keys == {2}
    ensures n.sched.log == r.sched.log
  {
    assert 1 in r.sched.threads;
    var m := Resume(r);
    n := Report(m, Own);
    assert n.sched.threads == map[];
  }

  function Stopper(regs: SyscallRegs, mem: Memory): Proc {
    Proc(1, 100, [Spawn(Proc(2, 200, []), ByClone), Raise(SIGSTOP), Syscall(regs, mem)])
  }

  /** A leader that clones, stops itself with `SIGSTOP` and goes on to a syscall. The
      recorder takes the stop for a preemption; replay diverges at the syscall. */
  lemma StopThenRecordDiverges(regs: SyscallRegs, mem: Memory)
    ensures var leader, choices := Stopper(regs, mem), [Own, Own, Own];
            && Grammar(leader.stops, false) && Admissible(Start(leader), choices)
            && FirstDisturbance(Start(leader), choices) == Some(1)
            && var r := RecordAll(Start(leader), choices);
               && IsMultithreaded(r.sched.log)
               && Drive(Records(r.sched.log), Launch(leader), None) == Err(ScheduleDiverged(1))
  {
    var leader := Stopper(regs, mem);
    StopperGrammar(regs, mem);
    var r1 := SpawnTurn(leader);
    var r2 := HoldTurn(r1, regs, mem);
    var r3 := BreakTurn(r2, regs, mem);
    hide Resume, Report, Grammar, Drive, Feed, Disturbs, Ending, Spawned12;
    ThreeTurns(Start(leader), r1, r2, r3);
    SpawnLogged(r1, leader);
    assert IsMultithreaded(r3.sched.log) by { assert IsLifecycle(r3.sched.log[0]); }
    hide Admissible, FirstDisturbance, RecordAll;
    DisturbedDiverges(leader, [Own, Own, Own]);
  }

  lemma SpawnLogged(r: Rec, leader: Proc)
    requires Spawned12(r, leader)
    ensures |r.sched.log| == 1 && IsLifecycle(r.sched.log[0])
  {
  }

  lemma ThreeTurns(r0: Rec, r1: Rec, r2: Rec, r3: Rec)
    requires r0.sched.threads != map[] && Enabled(Resume(r0), Own) && r1 == Report(Resume(r0), Own)
    requires r1.sched.threads != map[] && Enabled(Resume(r1), Own) && r2 == Report(Resume(r1), Own)
    requires r2.sched.threads != map[] && Enabled(Resume(r2), Own) && r3 == Report(Resume(r2), Own)
    requires Ending(Resume(r0), Own).None? && Ending(Resume(r1), Own).None? && Disturbs(Resume(r2), Own)
    requires !Disturbs(Resume(r0), Own) && !Disturbs(Resume(r1), Own)
    ensures Admissible(r0, [Own, Own, Own]) && RecordAll(r0, [Own, Own, Own]) == r3
    ensures FirstDisturbance(r0, [Own, Own, Own]) == Some(|Resume(r2).sched.log|)
  {
    hide Resume, Report, Enabled, Disturbs, Ending;
    var choices := [Own, Own, Own];
    assert choices[1..] == [Own, Own] && [Own, Own][1..] == [Own] && [Own][1..] == [];
    assert Admissible(r3, []) && Admissible(r2, [Own]) && Admissible(r1, [Own, Own]) && Admissible(r0, choices);
    assert RecordAll(r2, [Own]) == r3 && RecordAll(r1, [Own, Own]) == r3;
    var i := Some(|Resume(r2).sched.log|);
    assert FirstDisturbance(r2, [Own]) == i && FirstDisturbance(r1, [Own, Own]) == i;
  }

  lemma DisturbedDiverges(leader: Proc, choices: seq<Choice>)
    requires Grammar(leader.stops, false) && Admissible(Start(leader), choices)
    requires FirstDisturbance(Start(leader), choices).Some?
    ensures Drive(Records(RecordAll(Start(leader), choices).sched.log), Launch(leader), None)
         == Err(ScheduleDiverged(FirstDisturbance(Start(leader), choices).value))
  {
    hide Grammar, Admissible, FirstDisturbance, RecordAll, Drive, Feed, LoggedExit;
    var q := RecordReplay(leader, choices);
  }

  lemma StopperGrammar(regs: SyscallRegs, mem: Memory)
    ensures Grammar(Stopper(regs, mem).stops, false)
  {
    var stops := Stopper(regs, mem).stops;
    assert stops[1..] == [Raise(SIGSTOP), Syscall(regs, mem)] && stops[1..][1..] == [Syscall(regs, mem)];
    assert [Syscall(regs, mem)][1..] == [];
    assert Grammar([Syscall(regs, mem)], false);
    assert StopOk(Raise(SIGSTOP), false);
    assert Grammar(stops[1..], false);
    assert StopOk(stops[0], false);
  }

  lemma HoldTurn(r: Rec, regs: SyscallRegs, mem: Memory) returns (n: Rec)
    requires Spawned12(r, Stopper(regs, mem))
    ensures Enabled(Resume(r), Own) && n == Report(Resume(r), Own) && Ending(Resume(r), Own).None?
    ensures !Disturbs(Resume(r), Own)
    ensures r.sched.threads != map[] && n.sched.log == r.sched.log && n.sched.ready == [1] && n.sched.running.None?
    ensures n.sched.threads == map[1 := NewThread] && n.sched.lastScheduled == Some(1) && n.early.None?
    ensures 1 in n.alive && n.alive[1].held && n.alive[1].rest == [Syscall(regs, mem)]
  {
    assert 1 in r.sched.threads;
    var m := Resume(r);
    assert r.alive[1].rest == [Raise(SIGSTOP), Syscall(regs, mem)];
    n := Report(m, Own);
    assert n.sched.threads == map[1 := NewThread];
  }

  lemma BreakTurn(r: Rec, regs: SyscallRegs, mem: Memory) returns (n: Rec)
    requires r.sched.ready == [1] && r.sched.running.None? && r.sched.threads == map[1 := NewThread]
    requires r.sched.lastScheduled == Some(1) && r.early.None?
    requires 1 in r.alive && r.alive[1].held && r.alive[1].rest == [Syscall(regs, mem)]
    ensures r.sched.threads != map[] && Enabled(Resume(r), Own) && n == Report(Resume(r), Own)
    ensures Disturbs(Resume(r), Own) && r.sched.log <= n.sched.log && Resume(r).sched.log == r.sched.log
  {
    assert 1 in r.sched.threads;
    n := Report(Resume(r), Own);
  }
}
