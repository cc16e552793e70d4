/** Recording and replaying a process that never spawns: the single-tracee driver. */
module SoloReplay {
  import opened Common
  import opened Injection
  import opened Scheduling
  import opened SchedulerProperties
  import opened Recording
  import opened MtReplay
  import opened Simulation
  import opened Conservation
  import opened Session
  import opened Transparency

  const SIGTRAP: Signal := 5

  /** What a lone process has reported: no spawns, and nothing after its death. */
  ghost predicate Lone(stops: seq<Stop>) {
    && (forall i :: 0 <= i < |stops| ==> !stops[i].Spawn?)
    && (forall i :: 0 <= i < |stops| - 1 ==> !IsDeath(stops[i]))
  }

  predicate Dead(stops: seq<Stop>) {
    stops != [] && IsDeath(stops[|stops| - 1])
  }

  // ---- What the recorder logs -----------------------------------------------------------

  /** The kernel's reports: the stops in order, with preemptions in between. */
  ghost predicate Reports(t: Tid, statuses: seq<Status>, stops: seq<Stop>)
    decreases |statuses|
  {
    if statuses == [] then stops == []
    else
      && stops != []
      && ((statuses[0] == Stopped(t, SIGSTOP) && Reports(t, statuses[1..], stops))
          || (statuses[0] == StatusOf(t, stops[0]) && Reports(t, statuses[1..], stops[1..])))
  }

  /** The scheduler of a lone process that has reported `before`. */
  ghost predicate SoloAt(s: Sched, t: Tid, before: seq<Stop>) {
    && s.log == LogOf(t, before) && s.leader == t && s.lastScheduled == Some(t)
    && s.threadsFollowed == 1 && s.vforkPending == map[]
    && s.threads == map[t := Thread(DigestOf(before).pending, ResumeSignal(s, t))]
    && ((s.running == Some(t) && s.ready == []) || (s.running.None? && s.ready == [t]))
  }

  lemma SoloDispatched(s: Sched, t: Tid, before: seq<Stop>)
    requires SoloAt(s, t, before)
    ensures var d := Dispatch(s);
            d == s.(threads := map[t := Thread(DigestOf(before).pending, ResumeSignal(d, t))],
                    running := Some(t), ready := [])
  {
    hide LogOf, DigestOf;
    var d := Dispatch(s);
    if s.running.None? {
      assert s.ready[1..] == [];
      assert d.threads == map[t := Thread(DigestOf(before).pending, None)];
    }
  }

  /** A lone process that holds the CPU. */
  ghost predicate SoloRunning(d: Sched, t: Tid, pending: Option<SyscallRegs>) {
    && d.leader == t && d.lastScheduled == Some(t) && d.threadsFollowed == 1 && d.vforkPending == map[]
    && d.threads == map[t := Thread(pending, ResumeSignal(d, t))] && d.running == Some(t) && d.ready == []
  }

  /** Its next stop adds that stop's record and queues it again. */
  ghost predicate SoloNext(d: Sched, n: Sched, t: Tid, pending: Option<SyscallRegs>, added: seq<Event>) {
    n == d.(log := d.log + added, running := None, ready := [t],
            threads := map[t := Thread(pending, ResumeSignal(n, t))])
  }

  lemma SoloSyscall(d: Sched, t: Tid, pending: Option<SyscallRegs>, regs: SyscallRegs, mem: Memory)
    requires SoloRunning(d, t, pending)
    ensures SoloNext(d, Handle(d, PtraceSyscall(t, regs, mem)), t, if pending.None? then Some(regs) else None,
                     RecordFor(t, pending, Syscall(regs, mem)))
  {
    hide CapturedData;
    var n := Handle(d, PtraceSyscall(t, regs, mem));
    assert n.threads == map[t := Thread(if pending.None? then Some(regs) else None, ResumeSignal(d, t))];
  }

  lemma SoloSignal(d: Sched, t: Tid, pending: Option<SyscallRegs>, sig: Signal)
    requires SoloRunning(d, t, pending)
    ensures SoloNext(d, Handle(d, Stopped(t, sig)), t, pending, RecordFor(t, pending, Raise(sig)))
  {
    var n := Handle(d, Stopped(t, sig));
    assert n.threads == map[t := Thread(pending, ResumeSignal(n, t))];
  }

  lemma SoloExec(d: Sched, t: Tid, pending: Option<SyscallRegs>)
    requires SoloRunning(d, t, pending)
    ensures SoloNext(d, Handle(d, PtraceEventStop(t, OtherEvent)), t, pending, [])
  {
  }

  /** One reported stop of a living process adds its record and no other. */
  lemma SoloTurn(s: Sched, t: Tid, before: seq<Stop>, stop: Stop)
    requires SoloAt(s, t, before) && !stop.Spawn? && !IsDeath(stop)
    ensures SoloAt(Turn(s, StatusOf(t, stop)), t, before + [stop])
  {
    SoloDispatched(s, t, before);
    OneMoreStop(t, before, stop);
    hide LogOf, DigestOf, Dispatch, Handle;
    var d, pending := Dispatch(s), DigestOf(before).pending;
    match stop {
      case Syscall(regs, mem) => SoloSyscall(d, t, pending, regs, mem);
      case Raise(sig) => SoloSignal(d, t, pending, sig);
      case Exec => SoloExec(d, t, pending);
    }
  }

  lemma SoloPreempted(s: Sched, t: Tid, before: seq<Stop>)
    requires SoloAt(s, t, before)
    ensures SoloAt(Turn(s, Stopped(t, SIGSTOP)), t, before)
  {
    SoloDispatched(s, t, before);
    hide LogOf, DigestOf, Dispatch, Handle;
    SoloSignal(Dispatch(s), t, DigestOf(before).pending, SIGSTOP);
  }

  lemma SoloDeath(s: Sched, t: Tid, before: seq<Stop>, stop: Stop)
    requires SoloAt(s, t, before) && IsDeath(stop)
    ensures Turn(s, StatusOf(t, stop)).log == LogOf(t, before + [stop]) && Turn(s, StatusOf(t, stop)).threads == map[]
  {
    SoloDispatched(s, t, before);
    OneMoreStop(t, before, stop);
    hide LogOf, DigestOf, Dispatch;
  }

  lemma {:induction false} SoloLogged(s: Sched, t: Tid, statuses: seq<Status>, before: seq<Stop>, stops: seq<Stop>)
    requires SoloAt(s, t, before) && Reports(t, statuses, stops) && Lone(stops)
    ensures RunAll(s, statuses).log == LogOf(t, before + stops)
    decreases |statuses|
  {
    hide LogOf, DigestOf, Turn;
    if statuses == [] {
      assert before + stops == before;
    } else {
      assert t in s.threads;
      var n := Turn(s, statuses[0]);
      if IsDeath(stops[0]) {
        assert |stops| == 1;
        SoloDeath(s, t, before, stops[0]);
      } else {
        SoloTurn(s, t, before, stops[0]);
      }
      if statuses[0] == Stopped(t, SIGSTOP) && Reports(t, statuses[1..], stops) {
        SoloPreempted(s, t, before);
        SoloLogged(n, t, statuses[1..], before, stops);
      } else {
        assert before + stops == (before + [stops[0]]) + stops[1..];
        if IsDeath(stops[0]) {
          assert statuses[1..] == [] && before + stops == before + [stops[0]];
        } else {
          assert Lone(stops[1..]);
          SoloLogged(n, t, statuses[1..], before + [stops[0]], stops[1..]);
        }
      }
    }
  }

  lemma {:induction false} LogPrefix(t: Tid, stops: seq<Stop>, k: nat)
    requires k <= |stops|
    ensures LogOf(t, stops[..k]) <= LogOf(t, stops)
    decreases |stops|
  {
    hide DigestOf, RecordFor;
    if k < |stops| {
      var before := stops[..|stops| - 1];
      LogPrefix(t, before, k);
      assert before[..k] == stops[..k];
    } else {
      assert stops[..k] == stops;
    }
  }

  predicate Plain(e: Event) {
    !IsLifecycle(e) && !e.body.Checkpoint?
  }

  lemma {:induction false} LogPlain(t: Tid, stops: seq<Stop>)
    ensures forall i :: 0 <= i < |LogOf(t, stops)| ==> Plain(LogOf(t, stops)[i])
    decreases |stops|
  {
    hide DigestOf;
    if stops != [] {
      LogPlain(t, stops[..|stops| - 1]);
    }
  }

  // ---- Recordings whose log has no lifecycle record ------------------------------------------

  /** A recording in which the leader alone has been seen, and has made its first `k` stops. */
  ghost predicate SoloRec(r: Rec, leader: Proc, k: nat) {
    && Inv(r) && k <= |leader.stops| && SoloAt(r.sched, leader.rec, leader.stops[..k]) && r.early.None?
    && r.alive.Keys == {leader.rec} && r.alive[leader.rec].proc == leader
    && r.alive[leader.rec].rest == leader.stops[k..]
    && Lone(leader.stops[..k]) && !Dead(leader.stops[..k])
  }

  /** The log is that of the leader's first `k` stops; if the recording is over, those are all of them. */
  ghost predicate LogsPrefix(n: Rec, leader: Proc, k: nat) {
    && k <= |leader.stops| && n.sched.log == LogOf(leader.rec, leader.stops[..k]) && Lone(leader.stops[..k])
    && (Dead(leader.stops[..k]) ==> k == |leader.stops|)
    && (n.sched.threads == map[] ==> Dead(leader.stops[..k]))
  }

  lemma SoloRecStart(leader: Proc)
    requires Grammar(leader.stops, false)
    ensures SoloRec(Start(leader), leader, 0)
  {
    InvStart(leader);
    assert leader.stops[..0] == [] && leader.stops[0..] == leader.stops;
  }

  /** A child seen before its parent's spawn stop brings a spawn record, or nothing more is logged. */
  lemma {:induction false} EarlyRun(r: Rec, choices: seq<Choice>)
    requires Inv(r) && r.early.Some? && Admissible(r, choices)
    ensures var n := RecordAll(r, choices);
            IsMultithreaded(n.sched.log) || (n.sched.log == r.sched.log && n.sched.threads != map[])
    decreases |choices|
  {
    hide Inv, Report, Handle;
    EarlyHolds(r);
    if choices != [] {
      assert Resume(r) == r by { EarlyResumes(r); }
      hide Resume;
      var n := Report(r, choices[0]);
      InvReport(r, choices[0]);
      LogGrows(n, choices[1..]);
      ReportLogs(r, choices[0]);
      if choices[0].Own? {
        SpawnIsLogged(r);
        StaysMultithreaded(n.sched.log, RecordAll(n, choices[1..]).sched.log);
      } else {
        EarlyStays(r, choices[0]);
        EarlyRun(n, choices[1..]);
      }
    }
  }

  lemma EarlyHolds(r: Rec)
    requires Inv(r) && r.early.Some?
    ensures r.sched.threads != map[] && r.sched.running.Some?
  {
    hide Placed, VforksOk, Identities, ThreadOk;
    assert r.early.value in r.sched.threads;
  }

  lemma EarlyResumes(r: Rec)
    requires r.sched.running.Some?
    ensures Resume(r) == r
  {
  }

  lemma EarlyStays(r: Rec, choice: Choice)
    requires Inv(r) && r.early.Some? && Enabled(r, choice) && !choice.Own?
    ensures Report(r, choice).early.Some? && Added(r, choice) == []
  {
    hide Inv, Handle;
  }

  lemma SpawnIsLogged(r: Rec)
    requires Inv(r) && r.early.Some? && Enabled(r, Own)
    ensures IsMultithreaded(r.sched.log + Added(r, Own))
  {
    hide Placed, VforksOk, Identities, ThreadOk;
    var t := r.sched.running.value;
    assert AboutToSpawn(r, r.early.value);
    assert IsLifecycle((r.sched.log + Added(r, Own))[|r.sched.log|]);
  }

  lemma StaysMultithreaded(a: seq<Event>, b: seq<Event>)
    requires IsMultithreaded(a) && a <= b
    ensures IsMultithreaded(b)
  {
    var i :| 0 <= i < |a| && IsLifecycle(a[i]);
    assert IsLifecycle(b[i]);
  }

  lemma SoloRecTurn(r: Rec, leader: Proc, k: nat)
    requires SoloRec(r, leader, k) && Enabled(Resume(r), Own) && k < |leader.stops|
    ensures var n, stop := Report(Resume(r), Own), leader.stops[k];
            && Resume(r).alive[leader.rec].rest == r.alive[leader.rec].rest
            && Resume(r).sched.running == Some(leader.rec)
            && n.sched == Turn(r.sched, StatusOf(leader.rec, stop))
            && (!stop.Spawn? && !IsDeath(stop) ==>
                  && n.alive.Keys == {leader.rec} && n.early.None?
                  && n.alive[leader.rec].proc == leader && n.alive[leader.rec].rest == leader.stops[k + 1..])
  {
    hide Inv, LogOf, DigestOf, Handle;
    SoloDispatched(r.sched, leader.rec, leader.stops[..k]);
    assert leader.stops[k..][0] == leader.stops[k] && leader.stops[k..][1..] == leader.stops[k + 1..];
  }

  lemma {:induction false} SoloRun(r: Rec, leader: Proc, choices: seq<Choice>, k: nat) returns (j: nat)
    requires SoloRec(r, leader, k) && Admissible(r, choices) && !IsMultithreaded(RecordAll(r, choices).sched.log)
    requires Grammar(leader.stops, false)
    ensures LogsPrefix(RecordAll(r, choices), leader, j)
    decreases |choices|
  {
    hide Inv, Report, Resume, SoloAt, Enabled, Turn, LogOf, DigestOf, Grammar, Added;
    j := k;
    SoloTracked(r, leader, k);
    if choices != [] {
      var m, n := Resume(r), Report(Resume(r), choices[0]);
      TurnShape(r, choices[0]);
      LogGrows(n, choices[1..]);
      match choices[0] {
        case Preempt =>
          PreemptSolo(r, leader, k);
          j := SoloRun(n, leader, choices[1..], k);
        case FirstStop(t, sig) =>
          FirstStopSolo(r, leader, k, t, sig);
          EarlyRun(n, choices[1..]);
        case Own =>
          OwnSolo(r, leader, k);
          if leader.stops[k].Spawn? {
            StaysMultithreaded(n.sched.log, RecordAll(n, choices[1..]).sched.log);
          } else if IsDeath(leader.stops[k]) {
            j := k + 1;
            assert choices[1..] == [];
          } else {
            j := SoloRun(n, leader, choices[1..], k + 1);
          }
      }
    }
  }

  lemma SoloTracked(r: Rec, leader: Proc, k: nat)
    requires SoloRec(r, leader, k)
    ensures Inv(r) && r.sched.threads != map[] && r.sched.log == LogOf(leader.rec, leader.stops[..k])
  {
    hide LogOf, DigestOf;
    assert leader.rec in r.sched.threads;
  }

  lemma PreemptSolo(r: Rec, leader: Proc, k: nat)
    requires SoloRec(r, leader, k) && Enabled(Resume(r), Preempt)
    ensures SoloRec(Report(Resume(r), Preempt), leader, k)
  {
    hide LogOf, DigestOf, Inv, Handle;
    InvResume(r);
    InvReport(Resume(r), Preempt);
    SoloDispatched(r.sched, leader.rec, leader.stops[..k]);
    SoloPreempted(r.sched, leader.rec, leader.stops[..k]);
  }

  lemma FirstStopSolo(r: Rec, leader: Proc, k: nat, t: Tid, sig: Signal)
    requires SoloRec(r, leader, k) && Enabled(Resume(r), FirstStop(t, sig))
    ensures var n := Report(Resume(r), FirstStop(t, sig)); Inv(n) && n.early.Some? && n.sched.log == r.sched.log
  {
    hide LogOf, DigestOf, Inv, Handle;
    InvResume(r);
    InvReport(Resume(r), FirstStop(t, sig));
    ReportLogs(Resume(r), FirstStop(t, sig));
    SoloDispatched(r.sched, leader.rec, leader.stops[..k]);
    assert leader.rec in Resume(r).sched.threads;
  }

  lemma OwnSolo(r: Rec, leader: Proc, k: nat)
    requires SoloRec(r, leader, k) && Enabled(Resume(r), Own) && Grammar(leader.stops, false)
    ensures k < |leader.stops|
    ensures var n, stop := Report(Resume(r), Own), leader.stops[k];
            && (stop.Spawn? ==> IsMultithreaded(n.sched.log))
            && (IsDeath(stop) ==> LogsPrefix(n, leader, k + 1) && n.sched.threads == map[])
            && (!stop.Spawn? && !IsDeath(stop) ==> SoloRec(n, leader, k + 1))
  {
    hide LogOf, DigestOf, Handle, Report, Grammar, Turn, Inv;
    LeaderRests(r, leader, k);
    SoloRecTurn(r, leader, k);
    var before, stop := leader.stops[..k], leader.stops[k];
    assert leader.stops[..k + 1] == before + [stop];
    InvResume(r);
    InvReport(Resume(r), Own);
    if stop.Spawn? {
      TurnShape(r, Own);
      SpawnAdds(Resume(r), leader.rec, stop);
      assert IsLifecycle(Report(Resume(r), Own).sched.log[|Report(Resume(r), Own).sched.log| - 1]);
    } else if IsDeath(stop) {
      SoloDeath(r.sched, leader.rec, before, stop);
      DeathIsLast(r, leader, k);
    } else {
      SoloTurn(r.sched, leader.rec, before, stop);
    }
  }

  lemma LeaderRests(r: Rec, leader: Proc, k: nat)
    requires SoloRec(r, leader, k) && Enabled(Resume(r), Own)
    ensures k < |leader.stops|
  {
    hide LogOf, DigestOf, Handle, Inv;
    SoloDispatched(r.sched, leader.rec, leader.stops[..k]);
  }

  lemma SpawnAdds(m: Rec, t: Tid, stop: Stop)
    requires Enabled(m, Own) && m.sched.running == Some(t) && m.alive[t].rest[0] == stop && stop.Spawn?
    ensures Added(m, Own) == [Event(Some(t), ThreadSpawn(t, stop.child.rec))]
  {
  }

  lemma DeathIsLast(r: Rec, leader: Proc, k: nat)
    requires SoloRec(r, leader, k) && k < |leader.stops| && IsDeath(leader.stops[k])
    ensures k + 1 == |leader.stops| && leader.stops[..k + 1] == leader.stops
  {
    hide LogOf, DigestOf, Placed, VforksOk, Identities;
    var tr := r.alive[leader.rec];
    assert ThreadOk(r.sched, leader.rec, tr);
    assert tr.rest[0] == leader.stops[k];
    NextStop(tr.rest, r.sched.threads[leader.rec].pendingEnter.Some?);
    assert |leader.stops[k..]| == 1;
  }

  // ---- The replayed process -----------------------------------------------------------------

  /** A live process that makes the same stops; it keeps what replay feeds and hands it. */
  datatype Puppet = Puppet(rest: seq<Stop>, now: SyscallRegs, fed: seq<Injected>, signals: seq<Signal>)

  /** Resumed without exec tracing, so an `execve` shows as a plain `SIGTRAP`. */
  function Next(p: Puppet, sig: Option<Signal>): (Puppet, TraceeStop) {
    var p1 := p.(signals := p.signals + AsSeq(sig));
    if p.rest == [] then (p1, OtherStop)
    else
      var p2 := p1.(rest := p.rest[1..]);
      match p.rest[0]
      case Syscall(regs, _) => (p2.(now := regs), AtSyscall)
      case Raise(s) => (p2, SignalStop(s))
      case Exec => (p2, SignalStop(SIGTRAP))
      case Exit(code) => (p2, ExitedWith(code))
      case Killed(s) => (p2, KilledBy(s))
      case Spawn(_, _) => (p2, OtherStop)
  }

  const NoRegs: SyscallRegs := SyscallRegs(0, 0, [0, 0, 0, 0, 0, 0])

  /** A session opened on a log, with a live process that will make the stops of `leader`. */
  ghost function Theatre(leader: Proc, log: seq<Event>): Env<Puppet> {
    Env(Machine(Puppet(leader.stops, NoRegs, [], []), Next, (p: Puppet) => p.now, (p: Puppet) => p,
                (p: Puppet, addr: nat, data: seq<byte>, ret: i64) => p.(fed := p.fed + [Injected(addr, data, ret)])),
        leader, Records(log))
  }

  /** The machine is a puppet's: resuming moves its script and injection is kept. */
  ghost predicate Staged(env: Env<Puppet>) {
    && env.machine.resume == Next
    && (forall p :: env.machine.regs(p) == p.now) && (forall p :: env.machine.suppress(p) == p)
    && (forall p, addr, data, ret ::
          env.machine.inject(p, addr, data, ret) == p.(fed := p.fed + [Injected(addr, data, ret)]))
  }

  lemma TheatreStaged(leader: Proc, log: seq<Event>)
    ensures Staged(Theatre(leader, log)) && Theatre(leader, log).records == Records(log)
  {
  }

  /** None of the stops that the driver, unlike the recorder, takes for signals to forward. */
  ghost predicate Quiet(stops: seq<Stop>) {
    forall i :: 0 <= i < |stops| ==> !stops[i].Exec? && stops[i] != Raise(SIGSTOP)
  }

  /** After `k` stops the driver has consumed their records and served the tracee accordingly. */
  ghost predicate OnTrack(t: Tid, stops: seq<Stop>, k: nat, s: Seat<Puppet>)
    requires k <= |stops|
  {
    && s.Single? && s.finished.None? && s.tracee.rest == stops[k..]
    && s.cursor == |LogOf(t, stops[..k])|
    && s.pending == PendingFor(DigestOf(stops[..k]).pending)
    && s.tracee.fed == DigestOf(stops[..k]).results
    && s.tracee.signals + AsSeq(s.resumeSignal) == DigestOf(stops[..k]).signals
  }

  function PendingFor(enter: Option<SyscallRegs>): Option<Pending> {
    if enter.None? then None else Some(Pending(InjectionAddr(enter.value.nr, enter.value.args)))
  }

  /** Of a log of the first `j` stops, the record at the cursor after `k` stops is that of the next stop. */
  lemma NextRecord(t: Tid, stops: seq<Stop>, j: nat, k: nat)
    requires k < j <= |stops|
    ensures stops[..k + 1] == stops[..k] + [stops[k]]
    ensures var at := |LogOf(t, stops[..k])|;
            var more := RecordFor(t, DigestOf(stops[..k]).pending, stops[k]);
            && |LogOf(t, stops[..k + 1])| == at + |more|
            && SkipCheckpoints(Records(LogOf(t, stops[..j])), at) == at
            && (more != [] ==> at < |LogOf(t, stops[..j])| && LogOf(t, stops[..j])[at] == more[0])
    ensures DigestOf(stops[..k + 1]) == Absorb(DigestOf(stops[..k]), stops[k])
  {
    hide DigestOf, LogOf;
    assert stops[..k + 1] == stops[..k] + [stops[k]];
    OneMoreStop(t, stops[..k], stops[k]);
    assert stops[..j][..k + 1] == stops[..k + 1];
    LogPrefix(t, stops[..j], k + 1);
    LogPlain(t, stops[..j]);
  }

  /** The driver is at a record it will not skip, with this body. */
  ghost predicate Facing(env: Env<Puppet>, s: Seat<Puppet>, body: Body) {
    && Staged(env) && s.Single? && s.tracee.rest != [] && s.cursor < |env.records|
    && SkipCheckpoints(env.records, s.cursor) == s.cursor && env.records[s.cursor].event.body == body
  }

  /** The tracee as its next stop finds it: handed the waiting signal. */
  function Handed(s: Seat<Puppet>): Puppet
    requires s.Single? && s.tracee.rest != []
  {
    s.tracee.(signals := s.tracee.signals + AsSeq(s.resumeSignal), rest := s.tracee.rest[1..])
  }

  lemma SignalStep(env: Env<Puppet>, s: Seat<Puppet>, sig: Signal)
    requires Facing(env, s, Delivery(sig)) && s.tracee.rest[0] == Raise(sig)
    ensures Step(env, s) == Ok((s.(tracee := Handed(s), resumeSignal := Some(sig), cursor := s.cursor + 1,
                                   currentSeq := Some(env.records[s.cursor].seqNo)), false))
  {
    hide SkipCheckpoints;
  }

  lemma EntryStep(env: Env<Puppet>, s: Seat<Puppet>, regs: SyscallRegs, mem: Memory)
    requires Facing(env, s, SyscallEnter(regs.nr, regs.args)) && s.tracee.rest[0] == Syscall(regs, mem)
    requires s.pending.None?
    ensures Step(env, s) == Ok((s.(tracee := Handed(s).(now := regs), resumeSignal := None, cursor := s.cursor + 1,
                                   currentSeq := Some(env.records[s.cursor].seqNo), lastRegs := Some(regs),
                                   pending := PendingFor(Some(regs))), true))
  {
    hide SkipCheckpoints, InjectionAddr;
  }

  lemma ExitStep(env: Env<Puppet>, s: Seat<Puppet>, regs: SyscallRegs, mem: Memory, nr: u64, data: seq<byte>)
    requires Facing(env, s, SyscallExit(nr, regs.ret, data)) && s.tracee.rest[0] == Syscall(regs, mem)
    requires s.pending.Some?
    ensures var addr := s.pending.value.injectAddr;
            var p := Handed(s).(now := regs);
            Step(env, s)
            == Ok((s.(tracee := if addr.Some? then p.(fed := p.fed + [Injected(addr.value, data, regs.ret)]) else p,
                      resumeSignal := None, cursor := s.cursor + 1, lastRegs := Some(regs), pending := None,
                      currentSeq := Some(env.records[s.cursor].seqNo)), true))
  {
    hide SkipCheckpoints;
  }

  lemma RecordOnTrack(leader: Proc, j: nat, k: nat, s: Seat<Puppet>)
    requires k < j <= |leader.stops| && OnTrack(leader.rec, leader.stops, k, s)
    requires RecordFor(leader.rec, DigestOf(leader.stops[..k]).pending, leader.stops[k]) != []
    ensures var more := RecordFor(leader.rec, DigestOf(leader.stops[..k]).pending, leader.stops[k]);
            |more| == 1 && Facing(Theatre(leader, LogOf(leader.rec, leader.stops[..j])), s, more[0].body)
    ensures s.Single? && s.tracee.rest == [leader.stops[k]] + leader.stops[k + 1..]
  {
    NextRecord(leader.rec, leader.stops, j, k);
    TheatreStaged(leader, LogOf(leader.rec, leader.stops[..j]));
    hide Theatre, DigestOf, LogOf, SkipCheckpoints, Staged, Absorb, InjectionAddr, CapturedData;
  }

  lemma SignalOnTrack(leader: Proc, j: nat, k: nat, s: Seat<Puppet>)
    requires k < j <= |leader.stops| && leader.stops[k].Raise? && leader.stops[k].sig != SIGSTOP
    requires OnTrack(leader.rec, leader.stops, k, s)
    ensures var step := Step(Theatre(leader, LogOf(leader.rec, leader.stops[..j])), s);
            step.Ok? && OnTrack(leader.rec, leader.stops, k + 1, step.value.0)
  {
    NextRecord(leader.rec, leader.stops, j, k);
    RecordOnTrack(leader, j, k, s);
    hide Theatre, Facing, Step, LogOf, DigestOf;
    SignalStep(Theatre(leader, LogOf(leader.rec, leader.stops[..j])), s, leader.stops[k].sig);
  }

  lemma EntryOnTrack(leader: Proc, j: nat, k: nat, s: Seat<Puppet>)
    requires k < j <= |leader.stops| && leader.stops[k].Syscall?
    requires OnTrack(leader.rec, leader.stops, k, s) && s.pending.None?
    ensures var step := Step(Theatre(leader, LogOf(leader.rec, leader.stops[..j])), s);
            step.Ok? && OnTrack(leader.rec, leader.stops, k + 1, step.value.0)
  {
    NextRecord(leader.rec, leader.stops, j, k);
    RecordOnTrack(leader, j, k, s);
    hide Theatre, Facing, Step, LogOf, DigestOf, InjectionAddr;
    EntryStep(Theatre(leader, LogOf(leader.rec, leader.stops[..j])), s, leader.stops[k].regs, leader.stops[k].mem);
  }

  lemma ExitOnTrack(leader: Proc, j: nat, k: nat, s: Seat<Puppet>)
    requires k < j <= |leader.stops| && leader.stops[k].Syscall?
    requires OnTrack(leader.rec, leader.stops, k, s) && s.pending.Some?
    ensures var step := Step(Theatre(leader, LogOf(leader.rec, leader.stops[..j])), s);
            step.Ok? && OnTrack(leader.rec, leader.stops, k + 1, step.value.0)
  {
    NextRecord(leader.rec, leader.stops, j, k);
    RecordOnTrack(leader, j, k, s);
    hide Theatre, Facing, Step, LogOf, DigestOf, InjectionAddr, CapturedData;
    var enter := DigestOf(leader.stops[..k]).pending.value;
    var regs, mem := leader.stops[k].regs, leader.stops[k].mem;
    ExitStep(Theatre(leader, LogOf(leader.rec, leader.stops[..j])), s, regs, mem, enter.nr,
             CapturedData(enter, regs.ret, mem));
  }

  /** Each turn of the driver meets the stop its next record tells of. */
  lemma StepOnTrack(leader: Proc, j: nat, k: nat, s: Seat<Puppet>)
    requires k < j <= |leader.stops| && Lone(leader.stops[..j]) && Quiet(leader.stops[..j])
    requires !IsDeath(leader.stops[k]) && OnTrack(leader.rec, leader.stops, k, s)
    ensures var step := Step(Theatre(leader, LogOf(leader.rec, leader.stops[..j])), s);
            step.Ok? && OnTrack(leader.rec, leader.stops, k + 1, step.value.0)
  {
    assert leader.stops[..j][k] == leader.stops[k];
    assert !leader.stops[k].Spawn? && !leader.stops[k].Exec? && leader.stops[k] != Raise(SIGSTOP);
    hide OnTrack, Step, LogOf;
    if leader.stops[k].Raise? {
      SignalOnTrack(leader, j, k, s);
    } else if s.Single? && s.pending.None? {
      EntryOnTrack(leader, j, k, s);
    } else {
      TrackLive(leader.rec, leader.stops, k, s);
      ExitOnTrack(leader, j, k, s);
    }
  }

  lemma DeathStep(env: Env<Puppet>, s: Seat<Puppet>)
    requires Staged(env) && s.Single? && s.tracee.rest != [] && IsDeath(s.tracee.rest[0])
    ensures Step(env, s)
         == Ok((s.(tracee := Handed(s), resumeSignal := None, finished := Some(ExitOf(s.tracee.rest[0]))), false))
  {
  }

  /** Where replay of the first `j` stops should be: every record consumed, the tracee
      given every recorded result and signal, in order, and no other (but for a
      signal that waits for its next resume), and dead exactly if it died. */
  ghost predicate Served(leader: Proc, j: nat, s: Seat<Puppet>)
    requires j <= |leader.stops|
  {
    && s.Single? && s.cursor == |LogOf(leader.rec, leader.stops[..j])| && s.tracee.rest == leader.stops[j..]
    && s.tracee.fed == DigestOf(leader.stops[..j]).results
    && s.tracee.signals + AsSeq(s.resumeSignal) == DigestOf(leader.stops[..j]).signals
    && s.finished == if Dead(leader.stops[..j]) then Some(ExitOf(leader.stops[j - 1])) else None
  }

  lemma LastStep(leader: Proc, j: nat, s: Seat<Puppet>)
    requires 0 < j <= |leader.stops| && IsDeath(leader.stops[j - 1]) && OnTrack(leader.rec, leader.stops, j - 1, s)
    ensures var step := Step(Theatre(leader, LogOf(leader.rec, leader.stops[..j])), s);
            step.Ok? && Served(leader, j, step.value.0)
  {
    var k := j - 1;
    NextRecord(leader.rec, leader.stops, j, k);
    TheatreStaged(leader, LogOf(leader.rec, leader.stops[..j]));
    hide Theatre, DigestOf, LogOf, SkipCheckpoints, Staged, Step;
    assert leader.stops[k..][0] == leader.stops[k] && leader.stops[k..][1..] == leader.stops[k + 1..];
    DeathStep(Theatre(leader, LogOf(leader.rec, leader.stops[..j])), s);
  }

  lemma TrackLive(t: Tid, stops: seq<Stop>, k: nat, s: Seat<Puppet>)
    requires k <= |stops| && OnTrack(t, stops, k, s)
    ensures s.Single? && s.Finished().None?
  {
  }

  lemma SingleDriven(leader: Proc, j: nat)
    requires j <= |leader.stops|
    ensures var env := Theatre(leader, LogOf(leader.rec, leader.stops[..j]));
            && !env.Multithreaded()
            && Entry(env) == Single(Puppet(leader.stops, NoRegs, [], []), 0, None, None, None, None, None)
            && OnTrack(leader.rec, leader.stops, 0, Entry(env))
  {
    LogPlain(leader.rec, leader.stops[..j]);
    assert leader.stops[..0] == [] && leader.stops[0..] == leader.stops;
  }

  lemma {:induction false} PathOnTrack(leader: Proc, j: nat, k: nat)
    requires k <= j <= |leader.stops| && Lone(leader.stops[..j]) && Quiet(leader.stops[..j])
    requires k == j ==> !Dead(leader.stops[..j])
    ensures var at := At(Theatre(leader, LogOf(leader.rec, leader.stops[..j])), k);
            at.Some? && OnTrack(leader.rec, leader.stops, k, at.value)
    decreases k
  {
    hide OnTrack, Step, DigestOf, LogOf;
    SingleDriven(leader, j);
    if k > 0 {
      PathOnTrack(leader, j, k - 1);
      var env := Theatre(leader, LogOf(leader.rec, leader.stops[..j]));
      var s := At(env, k - 1).value;
      assert leader.stops[..j][k - 1] == leader.stops[k - 1];
      StepOnTrack(leader, j, k - 1, s);
      TrackLive(leader.rec, leader.stops, k - 1, s);
    }
  }

  lemma ServedPath(leader: Proc, j: nat)
    requires j <= |leader.stops| && Lone(leader.stops[..j]) && Quiet(leader.stops[..j])
    ensures var at := At(Theatre(leader, LogOf(leader.rec, leader.stops[..j])), j);
            at.Some? && Served(leader, j, at.value)
  {
    hide Step, DigestOf, LogOf, At;
    if Dead(leader.stops[..j]) {
      var env := Theatre(leader, LogOf(leader.rec, leader.stops[..j]));
      PathOnTrack(leader, j, j - 1);
      var s := At(env, j - 1).value;
      LastStep(leader, j, s);
      PathNext(env, s, j - 1);
    } else {
      PathOnTrack(leader, j, j);
    }
  }

  // ---- Stops taken for signals ------------------------------------------------------------------

  /** How many signals the driver forwards over these stops: it takes an exec for one. */
  function Alarms(stops: seq<Stop>): nat {
    if stops == [] then 0
    else Alarms(stops[..|stops| - 1]) + if stops[|stops| - 1].Raise? || stops[|stops| - 1].Exec? then 1 else 0
  }

  lemma {:induction false} AlarmsCount(stops: seq<Stop>)
    ensures Alarms(stops) >= |DigestOf(stops).signals|
    ensures !Quiet(stops) ==> Alarms(stops) > |DigestOf(stops).signals|
    decreases |stops|
  {
    if stops != [] {
      AlarmsCount(stops[..|stops| - 1]);
    }
  }

  /** Whatever the records say, each turn consumes one stop and forwards what it takes for signals. */
  ghost predicate Counted(stops: seq<Stop>, k: nat, s: Seat<Puppet>)
    requires k <= |stops|
  {
    && s.Single? && s.tracee.rest == stops[k..]
    && |s.tracee.signals| + |AsSeq(s.resumeSignal)| == Alarms(stops[..k])
  }

  lemma StepCounts(env: Env<Puppet>, stops: seq<Stop>, k: nat, s: Seat<Puppet>)
    requires k < |stops| && !stops[k].Spawn? && Counted(stops, k, s) && Step(env, s).Ok? && Staged(env)
    ensures Counted(stops, k + 1, Step(env, s).value.0)
  {
    hide SkipCheckpoints;
    assert stops[..k + 1][..k] == stops[..k];
    assert stops[k..][0] == stops[k] && stops[k..][1..] == stops[k + 1..];
  }

  /** Over any records at all, the driver hands a lone process one signal per signal
      stop, `SIGSTOP` included, and one more per exec. */
  lemma {:induction false} PathCounts(leader: Proc, log: seq<Event>, k: nat)
    requires k <= |leader.stops| && Lone(leader.stops[..k]) && !IsMultithreaded(log)
    ensures var at := At(Theatre(leader, log), k);
            at.Some? ==> Counted(leader.stops, k, at.value)
    decreases k
  {
    hide Step, Counted, Staged;
    var env := Theatre(leader, log);
    TheatreStaged(leader, log);
    if k == 0 {
      EntryCounted(leader, log);
    } else if At(env, k).Some? {
      var init := leader.stops[..k - 1];
      assert forall i :: 0 <= i < |init| ==> init[i] == leader.stops[..k][i];
      PathCounts(leader, log, k - 1);
      assert leader.stops[..k][k - 1] == leader.stops[k - 1];
      StepCounts(env, leader.stops, k - 1, At(env, k - 1).value);
    }
  }

  lemma EntryCounted(leader: Proc, log: seq<Event>)
    requires !IsMultithreaded(log)
    ensures Counted(leader.stops, 0, Entry(Theatre(leader, log)))
  {
    var env := Theatre(leader, log);
    assert !env.Multithreaded();
    assert leader.stops[..0] == [] && leader.stops[0..] == leader.stops;
  }

  // ---- The theorem ------------------------------------------------------------------------------

  /** Driven over a log of the process's first `j` stops, the session gets there faithfully. */
  ghost predicate Faithful(leader: Proc, j: nat, log: seq<Event>)
    requires j <= |leader.stops|
  {
    At(Theatre(leader, log), j).Some? && Served(leader, j, At(Theatre(leader, log), j).value)
  }

  /** The single-tracee driver follows a lone process over its recorded stops exactly
      when none of them is an exec or a `SIGSTOP` of its own: the driver does not
      trace execs and the recorder forwards no `SIGSTOP`, but the driver hands
      the process a signal for each. */
  lemma SoloFaithful(leader: Proc, j: nat)
    requires j <= |leader.stops| && Lone(leader.stops[..j])
    ensures Faithful(leader, j, LogOf(leader.rec, leader.stops[..j])) <==> Quiet(leader.stops[..j])
  {
    hide DigestOf, LogOf, Step, At;
    var log := LogOf(leader.rec, leader.stops[..j]);
    if Quiet(leader.stops[..j]) {
      ServedPath(leader, j);
    } else {
      LogPlain(leader.rec, leader.stops[..j]);
      PathCounts(leader, log, j);
      AlarmsCount(leader.stops[..j]);
    }
  }

  /** Record/replay of a process that never spawns, preempted at will: its log has no
      lifecycle record, so the single-tracee driver replays it, and that replay is
      faithful if and only if the process made no exec and no `SIGSTOP` stop. */
  lemma SoloRecordReplay(leader: Proc, j: nat, statuses: seq<Status>)
    requires j <= |leader.stops| && Lone(leader.stops[..j]) && Reports(leader.rec, statuses, leader.stops[..j])
    ensures var log := RunAll(Initial(leader.rec), statuses).log;
            !IsMultithreaded(log) && (Faithful(leader, j, log) <==> Quiet(leader.stops[..j]))
  {
    hide DigestOf, LogOf, Faithful, Lone, Reports;
    NothingReported(leader.rec);
    SoloLogged(Initial(leader.rec), leader.rec, statuses, [], leader.stops[..j]);
    assert [] + leader.stops[..j] == leader.stops[..j];
    LogPlain(leader.rec, leader.stops[..j]);
    SoloFaithful(leader, j);
  }

  lemma NothingReported(t: Tid)
    ensures SoloAt(Initial(t), t, [])
  {
  }

  /** The same of any recording whose log has no lifecycle record: it is the log of
      the leader's first stops, all of them if the recording is over. */
  lemma SoloRecording(leader: Proc, choices: seq<Choice>) returns (j: nat)
    requires Grammar(leader.stops, false) && Admissible(Start(leader), choices)
    requires !IsMultithreaded(RecordAll(Start(leader), choices).sched.log)
    ensures var r := RecordAll(Start(leader), choices);
            && LogsPrefix(r, leader, j)
            && (Faithful(leader, j, r.sched.log) <==> Quiet(leader.stops[..j]))
  {
    hide Grammar, Admissible, RecordAll, SoloRec, LogOf, Faithful;
    SoloRecStart(leader);
    j := SoloRun(Start(leader), leader, choices, 0);
    SoloFaithful(leader, j);
  }
}
