/** The recorder's log, thread by thread, against what each thread did. */
module LoggedOnce {
  import opened Common
  import opened Injection
  import opened Scheduling
  import opened SchedulerProperties
  import opened Recording
  import opened Simulation
  import opened Conservation

  // ---- One thread's records ---------------------------------------------------------------

  predicate IsOwnWork(body: Body) {
    body.SyscallEnter? || body.SyscallExit? || body.Delivery?
  }

  /** The syscall and signal records of the thread that holds `t`: those tagged with it
      since the last exit of a thread with that tid. */
  function Mine(log: seq<Event>, t: Tid): seq<Event> {
    if log == [] then []
    else
      var before, e := Mine(log[..|log| - 1], t), log[|log| - 1];
      if e.tid != Some(t) then before
      else if e.body.ThreadExit? then []
      else if IsOwnWork(e.body) then before + [e]
      else before
  }

  lemma MinePush(log: seq<Event>, e: Event, t: Tid)
    ensures Mine(log + [e], t)
         == if e.tid != Some(t) then Mine(log, t)
            else if e.body.ThreadExit? then []
            else if IsOwnWork(e.body) then Mine(log, t) + [e]
            else Mine(log, t)
  {
    assert (log + [e])[..|log|] == log;
  }

  /** At most one record more: nobody is told anything but the thread it is tagged with. */
  lemma MineOthers(log: seq<Event>, added: seq<Event>, t: Tid)
    requires |added| <= 1
    requires forall i :: 0 <= i < |added| ==>
               (added[i].tid != Some(t) || added[i].body.SchedSwitch? || added[i].body.ThreadSpawn?)
    ensures Mine(log + added, t) == Mine(log, t)
  {
    if added == [] {
      assert log + added == log;
    } else {
      MinePush(log, added[0], t);
      assert added == [added[0]];
    }
  }

  // ---- The invariant ---------------------------------------------------------------------

  /** Each live thread's records are those of the stops it has reported, and no tid
      that a new thread could get has any. */
  ghost predicate Truthful(r: Rec) {
    && (forall t :: t in r.alive ==> TellsOf(r, t))
    && (r.sched.threads != map[] ==> forall t :: t !in r.alive ==> Mine(r.sched.log, t) == [])
  }

  ghost predicate TellsOf(r: Rec, t: Tid)
    requires t in r.alive
  {
    && |r.alive[t].rest| <= |r.alive[t].proc.stops|
    && Mine(r.sched.log, t) == LogOf(t, Reported(r.alive[t]))
  }

  lemma TruthfulStart(leader: Proc)
    ensures Truthful(Start(leader))
  {
    assert Reported(Newborn(leader, 0)) == [];
  }

  lemma UntoldTells(r: Rec, t: Tid)
    requires t in r.alive && r.alive[t] == Newborn(r.alive[t].proc, r.alive[t].born) && Mine(r.sched.log, t) == []
    ensures TellsOf(r, t)
  {
    assert Reported(r.alive[t]) == [];
  }

  lemma TruthfulResume(r: Rec)
    requires Inv(r) && Truthful(r)
    ensures Truthful(Resume(r))
  {
    hide Inv, Mine, LogOf, Resume;
    ResumeShape(r);
    var n := Resume(r);
    assert r.sched.threads == map[] ==> n.sched.threads.Keys == {};
    forall t ensures Mine(n.sched.log, t) == Mine(r.sched.log, t) {
      MineOthers(r.sched.log, Switched(r.sched), t);
    }
    forall t | t in n.alive ensures TellsOf(n, t) {
      assert TellsOf(r, t) && Reported(n.alive[t]) == Reported(r.alive[t]);
    }
  }

  /** A stop that is no spawn and no death leaves the record its script says. */
  lemma WorkRecorded(s: Sched, t: Tid, stop: Stop)
    requires t in s.threads && !stop.Spawn? && !IsDeath(stop)
    ensures Recorded(s, StatusOf(t, stop)) == RecordFor(t, s.threads[t].pendingEnter, stop)
    ensures forall i :: 0 <= i < |Recorded(s, StatusOf(t, stop))| ==>
              IsOwnWork(Recorded(s, StatusOf(t, stop))[i].body) && Recorded(s, StatusOf(t, stop))[i].tid == Some(t)
  {
  }

  lemma WorkTold(r: Rec, n: Rec, t: Tid)
    requires Stopping(r, t) && TellsOf(r, t) && OnScript(PendingOf(r.sched, t), r.alive[t])
    requires var stop := r.alive[t].rest[0]; !stop.Spawn? && !IsDeath(stop)
    requires t in n.alive && n.alive[t] == AfterStop(r.alive[t], r.sched.threads[t].pendingEnter)
    requires n.sched.log == r.sched.log + Recorded(r.sched, StatusOf(t, r.alive[t].rest[0]))
    ensures TellsOf(n, t)
  {
    hide Inv, Mine, LogOf, DigestOf, Recorded, ThreadOk, InjectionOf, RecordFor;
    var tr, stop, status := r.alive[t], r.alive[t].rest[0], StatusOf(t, r.alive[t].rest[0]);
    WorkRecorded(r.sched, t, stop);
    OneRecord(r.sched, status);
    var k := |tr.proc.stops| - |tr.rest|;
    assert tr.proc.stops[k] == stop;
    assert Reported(n.alive[t]) == Reported(tr) + [stop];
    OneMoreStop(t, Reported(tr), stop);
    var added := Recorded(r.sched, status);
    if added != [] {
      assert added == [added[0]];
      MinePush(r.sched.log, added[0], t);
    } else {
      assert r.sched.log + added == r.sched.log;
      assert LogOf(t, Reported(tr)) + [] == LogOf(t, Reported(tr));
    }
  }

  lemma TruthfulWork(r: Rec, t: Tid)
    requires Stopping(r, t) && Truthful(r) && Scripted(r) && Enabled(r, Own)
    requires !r.alive[t].rest[0].Spawn? && !IsDeath(r.alive[t].rest[0])
    ensures Truthful(Report(r, Own))
  {
    hide Inv, Mine, LogOf, DigestOf, Recorded, ThreadOk, Handle, Report, TellsOf, OnScript;
    var n, added := Report(r, Own), Added(r, Own);
    OwnReport(r, t);
    ReportLogs(r, Own);
    OneRecord(r.sched, StatusOf(t, r.alive[t].rest[0]));
    WorkRecorded(r.sched, t, r.alive[t].rest[0]);
    forall u | u != t ensures Mine(n.sched.log, u) == Mine(r.sched.log, u) {
      MineOthers(r.sched.log, added, u);
    }
    assert OnScript(PendingOf(r.sched, t), r.alive[t]);
    WorkTold(r, n, t);
    forall u | u in n.alive && u != t ensures TellsOf(n, u) {
      TellsCarry(r, n, u);
    }
  }

  lemma TellsCarry(r: Rec, n: Rec, u: Tid)
    requires u in r.alive && u in n.alive && TellsOf(r, u) && n.alive[u] == r.alive[u]
    requires Mine(n.sched.log, u) == Mine(r.sched.log, u)
    ensures TellsOf(n, u)
  {
  }

  lemma TruthfulSpawn(r: Rec, t: Tid)
    requires Stopping(r, t) && Truthful(r) && Scripted(r) && Enabled(r, Own) && r.alive[t].rest[0].Spawn?
    ensures Truthful(Report(r, Own))
  {
    hide Inv, Mine, LogOf, DigestOf, ThreadOk, Handle, Report, TellsOf, OnScript;
    var n, stop := Report(r, Own), r.alive[t].rest[0];
    SpawnReport(r, t);
    ReportLogs(r, Own);
    forall u ensures Mine(n.sched.log, u) == Mine(r.sched.log, u) {
      MineOthers(r.sched.log, Added(r, Own), u);
    }
    assert OnScript(PendingOf(r.sched, t), r.alive[t]);
    SpawnTold(r, n, t);
    var c := stop.child.rec;
    assert Mine(r.sched.log, c) == [] by { ChildUntold(r, c); }
    UntoldTells(n, c);
    forall u | u in n.alive && u != t && u != c ensures TellsOf(n, u) {
      assert u in Bindings(r);
      TellsCarry(r, n, u);
    }
    forall u | u !in n.alive ensures Mine(n.sched.log, u) == [] {
      assert u !in Bindings(r);
      if u in r.alive {
        ChildUntold(r, u);
      }
    }
  }

  /** A thread whose birth is not yet in the log has no record of its own. */
  lemma ChildUntold(r: Rec, c: Tid)
    requires Inv(r) && Truthful(r) && c !in Bindings(r) && r.sched.threads != map[]
    ensures Mine(r.sched.log, c) == []
  {
    hide Mine, Placed, VforksOk, Identities, ThreadOk;
    if c in r.alive {
      assert TellsOf(r, c) && r.early == Some(c);
      assert Reported(r.alive[c]) == [];
    }
  }

  lemma SpawnTold(r: Rec, n: Rec, t: Tid)
    requires Stopping(r, t) && TellsOf(r, t) && OnScript(PendingOf(r.sched, t), r.alive[t]) && r.alive[t].rest[0].Spawn?
    requires t in n.alive && n.alive[t] == AfterStop(r.alive[t], r.sched.threads[t].pendingEnter)
    requires Mine(n.sched.log, t) == Mine(r.sched.log, t)
    ensures TellsOf(n, t)
  {
    hide Inv, Mine, LogOf, DigestOf, ThreadOk, InjectionOf;
    var tr := r.alive[t];
    var k := |tr.proc.stops| - |tr.rest|;
    assert tr.proc.stops[k] == tr.rest[0];
    assert Reported(n.alive[t]) == Reported(tr) + [tr.rest[0]];
    OneMoreStop(t, Reported(tr), tr.rest[0]);
    assert LogOf(t, Reported(tr)) + [] == LogOf(t, Reported(tr));
  }

  lemma TruthfulDeath(r: Rec, t: Tid)
    requires Stopping(r, t) && Truthful(r) && Enabled(r, Own) && IsDeath(r.alive[t].rest[0])
    ensures Truthful(Report(r, Own))
  {
    hide Inv, Mine, LogOf, DigestOf, ThreadOk, Handle, Report, TellsOf;
    var n, added := Report(r, Own), Added(r, Own);
    DeathReport(r, t);
    FollowsOne(r);
    OneRecord(r.sched, StatusOf(t, r.alive[t].rest[0]));
    forall u | u != t ensures Mine(n.sched.log, u) == Mine(r.sched.log, u) {
      MineOthers(r.sched.log, added, u);
    }
    forall u | u in n.alive ensures TellsOf(n, u) {
      TellsCarry(r, n, u);
    }
    if r.sched.threadsFollowed > 1 {
      MinePush(r.sched.log, Event(Some(t), ThreadExit(t)), t);
    }
  }

  /** Where nothing is logged and at most a child is seen early, the log stays truthful. */
  lemma TruthfulSilence(r: Rec, n: Rec)
    requires Truthful(r) && r.sched.threads != map[] && n.sched.log == r.sched.log
    requires forall u :: u in r.alive ==> u in n.alive && n.alive[u] == r.alive[u]
    requires forall u :: u in n.alive && u !in r.alive ==> n.alive[u] == Newborn(n.alive[u].proc, n.alive[u].born)
    ensures Truthful(n)
  {
    hide Mine, LogOf, TellsOf;
    forall u | u in n.alive ensures TellsOf(n, u) {
      if u in r.alive {
        TellsCarry(r, n, u);
      } else {
        UntoldTells(n, u);
      }
    }
  }

  lemma TruthfulReport(r: Rec, choice: Choice)
    requires Inv(r) && Truthful(r) && Scripted(r) && Enabled(r, choice) && r.sched.threads != map[]
    ensures Truthful(Report(r, choice))
  {
    hide Inv, Truthful, Scripted, Handle, ThreadOk;
    match choice
    case Preempt =>
      ReportLogs(r, choice);
      TruthfulSilence(r, Report(r, choice));
    case FirstStop(t, sig) =>
      ReportLogs(r, choice);
      TruthfulSilence(r, Report(r, choice));
    case Own =>
      var t := r.sched.running.value;
      RunningBound(r, t);
      InvThread(r, t);
      hide Report;
      if r.alive[t].rest[0].Spawn? {
        TruthfulSpawn(r, t);
      } else if IsDeath(r.alive[t].rest[0]) {
        TruthfulDeath(r, t);
      } else {
        TruthfulWork(r, t);
      }
  }

  lemma {:induction false} TruthfulReachable(r: Rec, choices: seq<Choice>)
    requires Inv(r) && Truthful(r) && Scripted(r) && Admissible(r, choices)
    ensures Truthful(RecordAll(r, choices)) && Scripted(RecordAll(r, choices))
    decreases |choices|
  {
    hide Inv, Truthful, Scripted, Report, Enabled;
    if choices != [] {
      InvResume(r);
      ResumeShape(r);
      assert Resume(r).sched.threads.Keys != {} && Resume(r).sched.threads != map[];
      hide Resume;
      TruthfulResume(r);
      ScriptedResume(r);
      InvReport(Resume(r), choices[0]);
      TruthfulReport(Resume(r), choices[0]);
      ScriptedReport(Resume(r), choices[0]);
      TruthfulReachable(Report(Resume(r), choices[0]), choices[1..]);
    }
  }

  // ---- What a thread's records tell ----------------------------------------------------------

  /** What one can learn of a thread from its records alone. */
  datatype Told = Told(entered: Option<(u64, Args)>, results: seq<Injected>, signals: seq<Signal>)

  function Hear(told: Told, e: Event): Told {
    match e.body
    case SyscallEnter(nr, args) => told.(entered := Some((nr, args)))
    case SyscallExit(_, ret, data) =>
      var addr := if told.entered.Some? then InjectionAddr(told.entered.value.0, told.entered.value.1) else None;
      told.(entered := None,
            results := told.results + if addr.Some? then [Injected(addr.value, data, ret)] else [])
    case Delivery(sig) => told.(signals := told.signals + [sig])
    case _ => told
  }

  function ToldBy(log: seq<Event>): Told {
    if log == [] then Told(None, [], []) else Hear(ToldBy(log[..|log| - 1]), log[|log| - 1])
  }

  function ToldAs(d: Digest): Told {
    Told(if d.pending.Some? then Some((d.pending.value.nr, d.pending.value.args)) else None, d.results, d.signals)
  }

  /** The records of a thread's stops tell its digest. */
  lemma {:induction false} LogTells(t: Tid, stops: seq<Stop>)
    ensures ToldBy(LogOf(t, stops)) == ToldAs(DigestOf(stops))
    decreases |stops|
  {
    if stops != [] {
      var before, stop := stops[..|stops| - 1], stops[|stops| - 1];
      LogTells(t, before);
      var record := RecordFor(t, DigestOf(before).pending, stop);
      hide LogOf, DigestOf, ToldBy, Hear, ToldAs, Absorb, RecordFor;
      assert LogOf(t, stops) == LogOf(t, before) + record by { LastRecord(t, stops); }
      assert DigestOf(stops) == Absorb(DigestOf(before), stop) by { LastAbsorbed(stops); }
      HearLast(LogOf(t, before), record);
      HearRecord(t, DigestOf(before), stop);
    }
  }

  lemma HearRecord(t: Tid, d: Digest, stop: Stop)
    ensures var record := RecordFor(t, d.pending, stop);
            && |record| <= 1
            && ToldAs(Absorb(d, stop)) == if record == [] then ToldAs(d) else Hear(ToldAs(d), record[0])
  {
    hide InjectionAddr, CapturedData;
    match stop
    case Syscall(regs, mem) =>
      if d.pending.Some? && InjectionAddr(d.pending.value.nr, d.pending.value.args).None? {
        assert d.results + [] == d.results;
      }
    case _ =>
  }

  lemma LastRecord(t: Tid, stops: seq<Stop>)
    requires stops != []
    ensures var before := stops[..|stops| - 1];
            LogOf(t, stops) == LogOf(t, before) + RecordFor(t, DigestOf(before).pending, stops[|stops| - 1])
  {
  }

  lemma LastAbsorbed(stops: seq<Stop>)
    requires stops != []
    ensures DigestOf(stops) == Absorb(DigestOf(stops[..|stops| - 1]), stops[|stops| - 1])
  {
  }

  lemma HearLast(log: seq<Event>, record: seq<Event>)
    requires |record| <= 1
    ensures ToldBy(log + record) == if record == [] then ToldBy(log) else Hear(ToldBy(log), record[0])
  {
    if record == [] {
      assert log + record == log;
    } else {
      assert (log + record)[..|log|] == log;
    }
  }

  /** Logged once. In every reachable recording, the records of each live thread in the
      whole log are those of the stops it has reported, each once and in order:
      they tell exactly the results captured from it and the signals it was stopped with. */
  lemma LoggedExactlyOnce(leader: Proc, choices: seq<Choice>, t: Tid)
    requires Grammar(leader.stops, false) && Admissible(Start(leader), choices)
    requires t in RecordAll(Start(leader), choices).alive
    ensures var r := RecordAll(Start(leader), choices);
            var tr := r.alive[t];
            && |tr.rest| <= |tr.proc.stops| && tr.proc.stops == Reported(tr) + tr.rest
            && Mine(r.sched.log, t) == LogOf(t, Reported(tr))
            && ToldBy(Mine(r.sched.log, t)).results == DigestOf(Reported(tr)).results == tr.captured
            && ToldBy(Mine(r.sched.log, t)).signals == DigestOf(Reported(tr)).signals == tr.raised
  {
    hide Grammar, Admissible, RecordAll, Inv, Mine, LogOf, DigestOf, ToldBy;
    InvStart(leader);
    TruthfulStart(leader);
    NewbornOnScript(leader, 0);
    TruthfulReachable(Start(leader), choices);
    var r := RecordAll(Start(leader), choices);
    assert TellsOf(r, t) && OnScript(PendingOf(r.sched, t), r.alive[t]);
    LogTells(t, Reported(r.alive[t]));
  }
}
