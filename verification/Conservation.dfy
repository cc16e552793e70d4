/** What each thread gets under replay is a function of its own stops, however
    the threads were interleaved. */
module Conservation {
  import opened Common
  import opened Injection
  import opened Scheduling
  import opened SchedulerProperties
  import opened Recording
  import opened MtReplay
  import opened Simulation

  /** What a thread's stops so far amount to: the syscall it is in, the results
      replay owes it, and the signals it was stopped with, but for `SIGSTOP`. */
  datatype Digest = Digest(pending: Option<SyscallRegs>, results: seq<Injected>, signals: seq<Signal>)

  function Absorb(d: Digest, stop: Stop): Digest {
    match stop
    case Syscall(regs, mem) =>
      if d.pending.None? then d.(pending := Some(regs))
      else d.(pending := None, results := d.results + InjectionOf(d.pending.value, regs.ret, mem))
    case Raise(sig) => if sig == SIGSTOP then d else d.(signals := d.signals + [sig])
    case _ => d
  }

  function DigestOf(stops: seq<Stop>): Digest {
    if stops == [] then Digest(None, [], [])
    else Absorb(DigestOf(stops[..|stops| - 1]), stops[|stops| - 1])
  }

  /** The record a stop leaves, given the syscall its thread is in. */
  function RecordFor(t: Tid, pending: Option<SyscallRegs>, stop: Stop): seq<Event> {
    match stop
    case Syscall(regs, mem) =>
      if pending.None? then [Event(Some(t), SyscallEnter(regs.nr, regs.args))]
      else [Event(Some(t), SyscallExit(pending.value.nr, regs.ret, CapturedData(pending.value, regs.ret, mem)))]
    case Raise(sig) => if sig == SIGSTOP then [] else [Event(Some(t), Delivery(sig))]
    case _ => []
  }

  /** The records of a thread that makes these stops. */
  function LogOf(t: Tid, stops: seq<Stop>): seq<Event> {
    if stops == [] then []
    else
      var before := stops[..|stops| - 1];
      LogOf(t, before) + RecordFor(t, DigestOf(before).pending, stops[|stops| - 1])
  }

  lemma OneMoreStop(t: Tid, before: seq<Stop>, stop: Stop)
    ensures DigestOf(before + [stop]) == Absorb(DigestOf(before), stop)
    ensures LogOf(t, before + [stop]) == LogOf(t, before) + RecordFor(t, DigestOf(before).pending, stop)
  {
    assert (before + [stop])[..|before|] == before;
  }

  /** The stops a thread has reported so far. */
  ghost function Reported(tr: Tracee): seq<Stop>
    requires |tr.rest| <= |tr.proc.stops|
  {
    tr.proc.stops[..|tr.proc.stops| - |tr.rest|]
  }

  ghost function PendingOf(s: Sched, t: Tid): Option<SyscallRegs> {
    if t in s.threads then s.threads[t].pendingEnter else None
  }

  ghost predicate OnScript(pending: Option<SyscallRegs>, tr: Tracee) {
    && |tr.rest| <= |tr.proc.stops|
    && tr.proc.stops == Reported(tr) + tr.rest
    && Digest(pending, tr.captured, tr.raised) == DigestOf(Reported(tr))
  }

  ghost predicate Scripted(r: Rec) {
    forall t :: t in r.alive ==> OnScript(PendingOf(r.sched, t), r.alive[t])
  }

  lemma OnScriptStep(pending: Option<SyscallRegs>, tr: Tracee, after: Option<SyscallRegs>)
    requires OnScript(pending, tr) && tr.rest != []
    requires after == Absorb(Digest(pending, [], []), tr.rest[0]).pending
    ensures OnScript(after, AfterStop(tr, pending))
  {
    AbsorbStep(pending, tr, after);
    OneMoreReported(pending, tr);
    hide DigestOf, Absorb, AfterStop, Reported;
  }

  /** What a stop adds to a thread's bookkeeping. */
  lemma AbsorbStep(pending: Option<SyscallRegs>, tr: Tracee, after: Option<SyscallRegs>)
    requires tr.rest != [] && after == Absorb(Digest(pending, [], []), tr.rest[0]).pending
    ensures var n := AfterStop(tr, pending);
            Digest(after, n.captured, n.raised) == Absorb(Digest(pending, tr.captured, tr.raised), tr.rest[0])
    ensures AfterStop(tr, pending).rest == tr.rest[1..] && AfterStop(tr, pending).proc == tr.proc
  {
    hide InjectionOf;
  }

  lemma OneMoreReported(pending: Option<SyscallRegs>, tr: Tracee)
    requires OnScript(pending, tr) && tr.rest != []
    requires AfterStop(tr, pending).rest == tr.rest[1..] && AfterStop(tr, pending).proc == tr.proc
    ensures var n := AfterStop(tr, pending);
            && |n.rest| <= |n.proc.stops| && n.proc.stops == Reported(n) + n.rest
            && DigestOf(Reported(n)) == Absorb(DigestOf(Reported(tr)), tr.rest[0])
  {
    hide Absorb, AfterStop;
    var n, k := AfterStop(tr, pending), |tr.proc.stops| - |tr.rest|;
    assert tr.proc.stops[k] == tr.rest[0];
    assert Reported(n)[..k] == Reported(tr) && Reported(n)[k] == tr.rest[0];
    assert tr.proc.stops == Reported(n) + n.rest;
  }

  lemma NewbornOnScript(p: Proc, now: nat)
    ensures OnScript(None, Newborn(p, now))
  {
    assert Reported(Newborn(p, now)) == [];
  }

  lemma ScriptedResume(r: Rec)
    requires Inv(r) && Scripted(r)
    ensures Scripted(Resume(r))
  {
    hide Inv, DigestOf;
    InvIdentities(r);
    var n := Resume(r);
    forall t | t in n.alive ensures OnScript(PendingOf(n.sched, t), n.alive[t]) {
      assert OnScript(PendingOf(r.sched, t), r.alive[t]);
      assert Reported(n.alive[t]) == Reported(r.alive[t]);
    }
  }

  /** A stop of the running thread moves its own script along and no other. */
  lemma ScriptedOwn(r: Rec, t: Tid)
    requires Stopping(r, t) && Scripted(r) && Enabled(r, Own)
    requires !r.alive[t].rest[0].Spawn? && !r.alive[t].rest[0].Exit? && !r.alive[t].rest[0].Killed?
    ensures Scripted(Report(r, Own))
  {
    hide Inv, Handle, Report, DigestOf, OnScript, ThreadOk, Recorded;
    var n, stop := Report(r, Own), r.alive[t].rest[0];
    OwnReport(r, t);
    StoppingUnqueued(r, t);
    match stop {
      case Syscall(regs, mem) => SyscallShape(r.sched, t, regs, mem);
      case Exec => EventShape(r.sched, t, OtherEvent);
      case Raise(sig) => SignalShape(r.sched, t, sig);
    }
    OnScriptStep(PendingOf(r.sched, t), r.alive[t], PendingOf(n.sched, t));
    assert forall u :: u in n.alive && u != t ==>
        n.alive[u] == r.alive[u] && PendingOf(n.sched, u) == PendingOf(r.sched, u);
  }

  lemma ScriptedSpawn(r: Rec, t: Tid)
    requires Stopping(r, t) && Scripted(r) && Enabled(r, Own) && r.alive[t].rest[0].Spawn?
    ensures Scripted(Report(r, Own))
  {
    hide Inv, Handle, Report, DigestOf, OnScript, ThreadOk, Recorded;
    var n, stop := Report(r, Own), r.alive[t].rest[0];
    SpawnReport(r, t);
    StoppingUnqueued(r, t);
    EventShape(r.sched, t, StatusOf(t, stop).event);
    OnScriptStep(PendingOf(r.sched, t), r.alive[t], PendingOf(n.sched, t));
    NewbornOnScript(stop.child, n.alive[stop.child.rec].born);
    forall u | u in n.alive ensures OnScript(PendingOf(n.sched, u), n.alive[u]) {
      if u != t && u != stop.child.rec {
        assert u in Bindings(r);
      }
    }
  }

  lemma ScriptedReport(r: Rec, choice: Choice)
    requires Inv(r) && Scripted(r) && Enabled(r, choice)
    ensures Scripted(Report(r, choice))
  {
    hide Inv, Handle, DigestOf, OnScript, ThreadOk, Recorded;
    var n := Report(r, choice);
    match choice
    case Preempt =>
      var t := r.sched.running.value;
      RunningBound(r, t);
      RunningUnqueued(r, t);
      SignalShape(r.sched, t, SIGSTOP);
    case FirstStop(t, sig) =>
      RunningUnqueued(r, t);
      FirstStopShape(r.sched, t, sig);
      forall u | u in n.alive ensures OnScript(PendingOf(n.sched, u), n.alive[u]) {
        if u !in r.alive {
          NewbornOnScript(n.alive[u].proc, n.alive[u].born);
        }
      }
    case Own =>
      var t := r.sched.running.value;
      RunningBound(r, t);
      InvThread(r, t);
      if r.alive[t].rest[0].Spawn? {
        ScriptedSpawn(r, t);
      } else if r.alive[t].rest[0].Exit? || r.alive[t].rest[0].Killed? {
        DeathReport(r, t);
      } else {
        ScriptedOwn(r, t);
      }
  }

  lemma {:induction false} ScriptedReachable(r: Rec, choices: seq<Choice>)
    requires Inv(r) && Scripted(r) && Admissible(r, choices)
    ensures Scripted(RecordAll(r, choices))
    decreases |choices|
  {
    hide Inv, Scripted, Resume, Report, Enabled;
    if choices != [] {
      InvResume(r);
      ScriptedResume(r);
      InvReport(Resume(r), choices[0]);
      ScriptedReport(Resume(r), choices[0]);
      ScriptedReachable(Report(Resume(r), choices[0]), choices[1..]);
    }
  }

  /** Replay has fed this thread, in order, exactly the results of its own
      suppressed syscalls, at the addresses and with the bytes the recorder
      captured, and nothing else; and each signal it was stopped with was handed
      back exactly once, in order, by the recorder and by the replayer alike,
      but for one that waits for the thread's next resume. */
  ghost predicate Conserved(r: Rec, q: Rep, t: Tid) {
    t in r.alive
    && var tr := r.alive[t];
       var live := tr.proc.live;
       && |tr.rest| <= |tr.proc.stops| && live in q.procs && live in q.threads
       && q.procs[live].injected == DigestOf(Reported(tr)).results
       && q.procs[live].delivered + AsSeq(q.threads[live].resumeSignal) == DigestOf(Reported(tr)).signals
       && tr.delivered + AsSeq(ResumeSignal(r.sched, t)) == DigestOf(Reported(tr)).signals
       && (q.threads[live].pending.Some? ==> q.threads[live].resumeSignal.None?)
  }

  lemma SimConserves(r: Rec, q: Rep, t: Tid)
    requires Sim(r, q) && Scripted(r) && t in Bindings(r)
    ensures Conserved(r, q, t)
  {
    hide Inv, DigestOf, SkipExecs, Linked, AtEntry;
    SimAgrees(r, q, t);
    InvThread(r, t);
    assert OnScript(PendingOf(r.sched, t), r.alive[t]);
  }

  /** For every interleaving, every live thread the log knows is served alike. */
  lemma ResultsAndSignalsConserved(leader: Proc, choices: seq<Choice>, q: Rep, t: Tid)
    requires Grammar(leader.stops, false) && Admissible(Start(leader), choices)
    requires Feed(Launch(leader), RecordAll(Start(leader), choices).sched.log) == Ok(q)
    requires q.finished.None? && RecordAll(Start(leader), choices).sched.threads != map[]
    requires t in Bindings(RecordAll(Start(leader), choices))
    ensures Conserved(RecordAll(Start(leader), choices), q, t)
  {
    hide Admissible, Consume, Grammar, Conserved, Inv, Sim, RecordAll;
    var r0, p0 := Start(leader), Launch(leader);
    InvStart(leader);
    SimStart(leader);
    NewbornOnScript(leader, 0);
    ScriptedReachable(r0, choices);
    var r := RecordAll(r0, choices);
    assert r.sched.log[|r0.sched.log|..] == r.sched.log;
    var q' := MatchedRun(r0, p0, choices);
    SimConserves(r, q, t);
  }

  lemma SimAgrees(r: Rec, p: Rep, t: Tid)
    requires Sim(r, p) && t in Bindings(r)
    ensures Agrees(r, p.procs, p.threads, t)
  {
    hide Inv, Agrees;
  }
}
