/** A whole recording: the scheduler together with the threads it drives.
    A thread is a script of the stops it reports when resumed; a thread it spawns
    is part of that script. What the kernel may do is spelled out in `Enabled`. */
module Recording {
  import opened Common
  import opened Injection
  import opened Scheduling
  import opened SchedulerProperties

  type Pid = nat

  datatype Birth = ByClone | ByFork | ByVfork

  datatype Stop =
    | Syscall(regs: SyscallRegs, mem: Memory)
    | Spawn(child: Proc, how: Birth)
    | Exec
    | Raise(sig: Signal)
    | Exit(code: int)
    | Killed(sig: Signal)

  /** A thread of the target: its tid in the recording, its pid in the replay, and its stops. */
  datatype Proc = Proc(rec: Tid, live: Pid, stops: seq<Stop>)

  predicate IsDeath(stop: Stop) {
    stop.Exit? || stop.Killed?
  }

  /** The order ptrace imposes on one thread's stops. Syscall stops alternate between
      entry and exit, signals are delivered outside that pair, and death is last. */
  ghost predicate Grammar(stops: seq<Stop>, inside: bool)
    decreases stops, 0
  {
    if stops == [] then true
    else
      && StopOk(stops[0], inside)
      && (IsDeath(stops[0]) ==> |stops| == 1)
      && Grammar(stops[1..], if stops[0].Syscall? then !inside else inside)
  }

  ghost predicate StopOk(stop: Stop, inside: bool)
    decreases stop, 1
  {
    match stop
    case Spawn(child, _) => Grammar(child.stops, false)
    case Raise(_) => !inside
    case _ => true
  }

  /** A live thread: the stops it has yet to report, when it was born, which signals
      it was stopped with and handed back, and which results were captured from it.
      `held` says that it has reported a `SIGSTOP` of its own, which the recorder
      takes for a preemption: it neither logs it nor hands it back. */
  datatype Tracee = Tracee(
    proc: Proc,
    rest: seq<Stop>,
    born: nat,
    raised: seq<Signal>,
    delivered: seq<Signal>,
    captured: seq<Injected>,
    held: bool)

  function Newborn(p: Proc, now: nat): Tracee {
    Tracee(p, p.stops, now, [], [], [], false)
  }

  /** `early` is a child whose first stop was seen before its parent's spawn stop;
      `directed` holds, per log record, the replay pid of the thread that made it. */
  datatype Rec = Rec(
    sched: Sched,
    alive: map<Tid, Tracee>,
    early: Option<Tid>,
    clock: nat,
    directed: seq<Option<Pid>>)

  function Start(leader: Proc): Rec {
    Rec(Initial(leader.rec), map[leader.rec := Newborn(leader, 0)], None, 1, [])
  }

  function StatusOf(t: Tid, stop: Stop): Status {
    match stop
    case Syscall(regs, mem) => PtraceSyscall(t, regs, mem)
    case Spawn(child, ByClone) => PtraceEventStop(t, Clone(child.rec))
    case Spawn(child, ByFork) => PtraceEventStop(t, Fork(child.rec))
    case Spawn(child, ByVfork) => PtraceEventStop(t, Vfork(child.rec))
    case Exec => PtraceEventStop(t, OtherEvent)
    case Raise(sig) => Stopped(t, sig)
    case Exit(code) => Exited(t, code)
    case Killed(sig) => Signaled(t, sig)
  }

  /** A turn's first half, with the signal handed over at the resume. */
  ghost function Resume(r: Rec): Rec {
    var s := r.sched;
    if s.running.None? && s.ready != [] && s.ready[0] in r.alive then
      var t := s.ready[0];
      var handed := AsSeq(ResumeSignal(s, t));
      r.(sched := Dispatch(s),
         alive := r.alive[t := r.alive[t].(delivered := r.alive[t].delivered + handed)],
         directed := r.directed + if s.lastScheduled != Some(t) then [None] else [])
    else r.(sched := Dispatch(s))
  }

  /** What the kernel chooses next: the resumed thread stops on its own, the
      preemption timer stops it, or a spawned child is seen for the first time. */
  datatype Choice = Own | Preempt | FirstStop(tid: Tid, sig: Signal)

  ghost predicate Fresh(r: Rec, child: Proc) {
    child.rec !in r.alive && forall t :: t in r.alive ==> r.alive[t].proc.live != child.live
  }

  /** The running thread is about to report the spawn of a thread with this tid. */
  ghost predicate AboutToSpawn(r: Rec, tid: Tid) {
    && r.sched.running.Some?
    && r.sched.running.value in r.alive
    && var rest := r.alive[r.sched.running.value].rest;
       rest != [] && rest[0].Spawn? && rest[0].child.rec == tid
  }

  /** The hypotheses on the kernel. Stops come from the resumed thread, except a
      child's first one, which may come before or after its parent's spawn stop;
      once it has come early, the parent's next stop is that spawn. New ids are
      not held by any live thread. */
  ghost predicate Enabled(r: Rec, choice: Choice) {
    match choice
    case Own =>
      && r.sched.running.Some?
      && r.sched.running.value in r.alive
      && var rest := r.alive[r.sched.running.value].rest;
         rest != [] && (rest[0].Spawn? && r.early.None? ==> Fresh(r, rest[0].child))
    case Preempt => r.sched.running.Some? && r.early.None?
    case FirstStop(t, _) =>
      && t !in r.sched.threads
      && (t in r.alive
          || (r.early.None? && AboutToSpawn(r, t)
              && Fresh(r, r.alive[r.sched.running.value].rest[0].child)))
  }

  function AfterStop(tr: Tracee, pending: Option<SyscallRegs>): Tracee
    requires tr.rest != []
  {
    var t1 := tr.(rest := tr.rest[1..]);
    match tr.rest[0]
    case Raise(sig) => if sig == SIGSTOP then t1.(held := true) else t1.(raised := t1.raised + [sig])
    case Syscall(regs, mem) =>
      if pending.Some? then t1.(captured := t1.captured + InjectionOf(pending.value, regs.ret, mem)) else t1
    case _ => t1
  }

  ghost function Report(r: Rec, choice: Choice): Rec
    requires Enabled(r, choice)
  {
    match choice
    case Own =>
      var t := r.sched.running.value;
      var tr := r.alive[t];
      var stop := tr.rest[0];
      var status := StatusOf(t, stop);
      var pending := if t in r.sched.threads then r.sched.threads[t].pendingEnter else None;
      var r1 := r.(sched := Handle(r.sched, status),
                   alive := r.alive[t := AfterStop(tr, pending)],
                   directed := r.directed + if Recorded(r.sched, status) != [] then [Some(tr.proc.live)] else []);
      if stop.Spawn? then
        if r.early.Some? then r1.(early := None)
        else r1.(alive := r1.alive[stop.child.rec := Newborn(stop.child, r.clock)], clock := r.clock + 1)
      else if stop.Exit? || stop.Killed? then r1.(alive := r1.alive - {t})
      else r1
    case Preempt => r.(sched := Handle(r.sched, Stopped(r.sched.running.value, SIGSTOP)))
    case FirstStop(t, sig) =>
      var r1 := r.(sched := Handle(r.sched, Stopped(t, sig)));
      if t in r.alive then r1
      else
        var child := r.alive[r.sched.running.value].rest[0].child;
        r1.(alive := r1.alive[t := Newborn(child, r.clock)], early := Some(t), clock := r.clock + 1)
  }

  /** Runs of the recorder under those hypotheses. */
  ghost predicate Admissible(r: Rec, choices: seq<Choice>)
    decreases |choices|
  {
    choices == []
    || (r.sched.threads != map[] && Enabled(Resume(r), choices[0])
        && Admissible(Report(Resume(r), choices[0]), choices[1..]))
  }

  ghost function RecordAll(r: Rec, choices: seq<Choice>): Rec
    requires Admissible(r, choices)
    decreases |choices|
  {
    if choices == [] then r else RecordAll(Report(Resume(r), choices[0]), choices[1..])
  }

  // ---- The invariant -------------------------------------------------------

  ghost predicate Identities(r: Rec) {
    && r.sched.threads.Keys <= r.alive.Keys
    && (forall t :: t in r.alive ==> r.alive[t].proc.rec == t && r.alive[t].born < r.clock)
    && (forall t, u :: t in r.alive && u in r.alive && t != u ==>
          r.alive[t].proc.live != r.alive[u].proc.live)
  }

  /** Every tracked thread is running, queued once, or suspended by a vfork. */
  ghost predicate Placed(r: Rec) {
    var s := r.sched;
    && NoDuplicates(s.ready)
    && (forall t :: t in s.ready ==> t in s.threads)
    && (s.running.Some? ==>
          s.running.value in s.threads && s.running.value !in s.ready && s.lastScheduled == s.running)
    && (forall t :: t in s.threads ==>
          t in s.ready || s.running == Some(t) || Suspended(s, t))
  }

  ghost predicate Suspended(s: Sched, t: Tid) {
    exists c :: c in s.vforkPending && s.vforkPending[c] == t
  }

  ghost predicate VforksOk(r: Rec) {
    var s := r.sched;
    forall c :: c in s.vforkPending ==>
      && c in r.alive && s.vforkPending[c] in s.threads && s.vforkPending[c] in r.alive
      && s.vforkPending[c] !in s.ready && s.running != Some(s.vforkPending[c])
      && r.alive[s.vforkPending[c]].born < r.alive[c].born
      && (forall c' :: c' in s.vforkPending && s.vforkPending[c'] == s.vforkPending[c] ==> c' == c)
  }

  ghost predicate EarlyOk(r: Rec) {
    r.early.Some? ==>
      && AboutToSpawn(r, r.early.value)
      && r.early.value in r.sched.threads && r.early.value in r.alive
      && r.early.value !in r.sched.vforkPending
      && r.sched.running != r.early
      && r.sched.threads[r.early.value] == NewThread
      && r.alive[r.early.value]
         == Newborn(r.alive[r.sched.running.value].rest[0].child, r.alive[r.early.value].born)
      && r.alive[r.sched.running.value].born < r.alive[r.early.value].born
  }

  /** One thread's bookkeeping against its script. Every signal it was stopped
      with has been handed back or is waiting, in order, for its next resume. */
  ghost predicate ThreadOk(s: Sched, t: Tid, tr: Tracee) {
    if t in s.threads then
      && Grammar(tr.rest, s.threads[t].pendingEnter.Some?)
      && tr.raised == tr.delivered + AsSeq(s.threads[t].resumeSignal)
      && (s.threads[t].resumeSignal.Some? ==> s.threads[t].pendingEnter.None? && s.running != Some(t))
    else
      Grammar(tr.rest, false) && tr == Newborn(tr.proc, tr.born)
  }

  ghost predicate Inv(r: Rec) {
    && Identities(r) && Placed(r) && VforksOk(r) && EarlyOk(r)
    && (forall t :: t in r.alive ==> ThreadOk(r.sched, t, r.alive[t]))
    && |r.directed| == |r.sched.log|
    && r.sched.threadsFollowed >= 1
    && (r.sched.threadsFollowed == 1 ==> r.sched.threads.Keys <= {r.sched.leader})
  }

  lemma InvStart(leader: Proc)
    requires Grammar(leader.stops, false)
    ensures Inv(Start(leader))
  {
  }

  lemma InvResume(r: Rec)
    requires Inv(r)
    ensures Inv(Resume(r))
  {
    var s := r.sched;
    if s.running.None? && s.ready != [] {
      var t := s.ready[0];
      assert t in s.ready && t in s.threads && t in r.alive;
      InvResumed(r, Resume(r), t);
    }
  }

  ghost predicate ResumedTo(r: Rec, n: Rec, t: Tid) {
    && r.sched.running.None? && r.sched.ready != [] && t == r.sched.ready[0]
    && t in r.sched.threads && t in r.alive
    && n.sched.running == Some(t) && n.sched.lastScheduled == Some(t)
    && n.sched.ready == r.sched.ready[1..]
    && n.sched.threads == r.sched.threads[t := r.sched.threads[t].(resumeSignal := None)]
    && n.sched.vforkPending == r.sched.vforkPending && n.sched.leader == r.sched.leader
    && n.sched.threadsFollowed == r.sched.threadsFollowed
    && n.alive == r.alive[t := r.alive[t].(delivered :=
                    r.alive[t].delivered + AsSeq(r.sched.threads[t].resumeSignal))]
    && n.early == r.early && n.clock == r.clock && |n.directed| == |n.sched.log|
  }

  lemma PopFront(q: seq<Tid>)
    requires q != [] && NoDuplicates(q)
    ensures NoDuplicates(q[1..]) && q[0] !in q[1..]
    ensures forall t :: t in q <==> t == q[0] || t in q[1..]
  {
  }

  lemma PushBack(q: seq<Tid>, t: Tid)
    requires NoDuplicates(q) && t !in q
    ensures NoDuplicates(q + [t])
    ensures forall u :: u in q + [t] <==> u == t || u in q
  {
  }

  lemma ResumedPlaced(r: Rec, n: Rec, t: Tid)
    requires Placed(r) && Identities(r) && ResumedTo(r, n, t)
    ensures Placed(n)
  {
    PopFront(r.sched.ready);
    forall u | u in n.sched.threads
      ensures u in n.sched.ready || n.sched.running == Some(u) || Suspended(n.sched, u)
    {
      assert u in r.sched.threads;
      if Suspended(r.sched, u) {
        var c :| c in r.sched.vforkPending && r.sched.vforkPending[c] == u;
        assert c in n.sched.vforkPending;
      }
    }
  }

  lemma ResumedVforks(r: Rec, n: Rec, t: Tid)
    requires Placed(r) && VforksOk(r) && ResumedTo(r, n, t)
    ensures VforksOk(n)
  {
    PopFront(r.sched.ready);
  }

  lemma InvResumed(r: Rec, n: Rec, t: Tid)
    requires Inv(r) && ResumedTo(r, n, t)
    ensures Inv(n)
  {
    ResumedPlaced(r, n, t);
    ResumedVforks(r, n, t);
    assert Identities(n);
    forall u | u in n.alive ensures ThreadOk(n.sched, u, n.alive[u]) {
      assert ThreadOk(r.sched, u, r.alive[u]);
    }
  }

  // ---- Stops keep the invariant ----------------------------------------------

  ghost predicate KeepsBirths(r: Rec, n: Rec) {
    forall u :: u in r.alive ==> u in n.alive && n.alive[u].born == r.alive[u].born
  }

  lemma SuspendedIn(s: Sched, n: Sched, t: Tid)
    requires Suspended(s, t)
    requires forall c :: c in s.vforkPending && s.vforkPending[c] == t ==>
        c in n.vforkPending && n.vforkPending[c] == t
    ensures Suspended(n, t)
  {
    var c :| c in s.vforkPending && s.vforkPending[c] == t;
    assert c in n.vforkPending;
  }

  /** The running thread stopped and went to the back of the queue. */
  lemma RequeuedPlaced(r: Rec, n: Rec, t: Tid)
    requires Placed(r) && VforksOk(r) && r.sched.running == Some(t)
    requires n.sched.running.None? && n.sched.ready == r.sched.ready + [t]
    requires n.sched.threads.Keys == r.sched.threads.Keys
    requires n.sched.vforkPending == r.sched.vforkPending && KeepsBirths(r, n)
    ensures Placed(n) && VforksOk(n)
  {
    PushBack(r.sched.ready, t);
    forall u | u in n.sched.threads ensures u in n.sched.ready || Suspended(n.sched, u) {
      assert u in r.sched.threads;
      if Suspended(r.sched, u) {
        SuspendedIn(r.sched, n.sched, u);
      }
    }
  }

  /** The running thread stopped inside a vfork and waits for its child. */
  lemma VforkedPlaced(r: Rec, n: Rec, t: Tid, c: Tid)
    requires Placed(r) && VforksOk(r) && r.sched.running == Some(t)
    requires n.sched.running.None? && n.sched.ready == r.sched.ready
    requires n.sched.threads.Keys == r.sched.threads.Keys
    requires c !in r.sched.vforkPending && n.sched.vforkPending == r.sched.vforkPending[c := t]
    requires KeepsBirths(r, n) && c in n.alive && t in n.alive && n.alive[t].born < n.alive[c].born
    ensures Placed(n) && VforksOk(n)
  {
    assert n.sched.vforkPending[c] == t;
    forall u | u in n.sched.threads ensures u in n.sched.ready || Suspended(n.sched, u) {
      assert u in r.sched.threads;
      if Suspended(r.sched, u) {
        SuspendedIn(r.sched, n.sched, u);
      }
    }
  }

  lemma WithoutAbsent(q: seq<Tid>, t: Tid)
    requires t !in q
    ensures Without(q, t) == q
  {
    if q != [] {
      assert q[0] in q;
      WithoutAbsent(q[1..], t);
    }
  }

  /** `n` follows `r` by the death of `t`: a parent suspended on it is queued again. */
  ghost predicate Died(r: Rec, n: Rec, t: Tid) {
    && n.sched.running.None? && n.sched.threads == r.sched.threads - {t}
    && n.sched.vforkPending == r.sched.vforkPending - {t}
    && n.sched.ready == r.sched.ready
                        + (if t in r.sched.vforkPending then [r.sched.vforkPending[t]] else [])
    && n.sched.threadsFollowed == r.sched.threadsFollowed && n.sched.leader == r.sched.leader
    && n.alive == r.alive - {t} && n.early.None? && n.clock == r.clock
    && |n.directed| == |n.sched.log|
  }

  lemma ExitedPlaced(r: Rec, n: Rec, t: Tid)
    requires Placed(r) && VforksOk(r) && r.sched.running == Some(t) && Died(r, n, t)
    ensures Placed(n) && VforksOk(n)
  {
    hide Placed, VforksOk, Died;
    ExitedVforks(r, n, t);
    ExitedQueue(r, n, t);
  }

  lemma ExitedVforks(r: Rec, n: Rec, t: Tid)
    requires Placed(r) && VforksOk(r) && r.sched.running == Some(t) && Died(r, n, t)
    ensures VforksOk(n)
  {
    hide Suspended, NoDuplicates;
  }

  lemma ExitedQueue(r: Rec, n: Rec, t: Tid)
    requires Placed(r) && VforksOk(r) && r.sched.running == Some(t) && Died(r, n, t)
    ensures Placed(n)
  {
    var parent := if t in r.sched.vforkPending then Some(r.sched.vforkPending[t]) else None;
    if parent.Some? {
      PushBack(r.sched.ready, parent.value);
    } else {
      assert n.sched.ready == r.sched.ready;
    }
    hide VforksOk, NoDuplicates;
    forall u | u in n.sched.threads ensures u in n.sched.ready || Suspended(n.sched, u) {
      assert u in r.sched.threads;
      if Suspended(r.sched, u) && parent != Some(u) {
        SuspendedIn(r.sched, n.sched, u);
      }
    }
  }

  /** A child was seen for the first time and queued. */
  lemma FirstSeenPlaced(r: Rec, n: Rec, t: Tid)
    requires Placed(r) && VforksOk(r) && t !in r.sched.threads
    requires n.sched.running == r.sched.running && n.sched.lastScheduled == r.sched.lastScheduled
    requires n.sched.ready == r.sched.ready + [t]
    requires n.sched.threads.Keys == r.sched.threads.Keys + {t}
    requires n.sched.vforkPending == r.sched.vforkPending && KeepsBirths(r, n)
    ensures Placed(n) && VforksOk(n)
  {
    PushBack(r.sched.ready, t);
    forall u | u in n.sched.threads
      ensures u in n.sched.ready || n.sched.running == Some(u) || Suspended(n.sched, u)
    {
      if u in r.sched.threads && Suspended(r.sched, u) {
        SuspendedIn(r.sched, n.sched, u);
      }
    }
  }

  ghost predicate Stopping(r: Rec, t: Tid) {
    && Inv(r) && r.sched.running == Some(t) && t in r.alive && t in r.sched.threads
    && r.alive[t].rest != [] && ThreadOk(r.sched, t, r.alive[t])
  }

  /** The common stop: `t` is requeued with new bookkeeping and nobody is born. */
  lemma InvRequeued(r: Rec, n: Rec, t: Tid, th: Thread, tr: Tracee)
    requires Inv(r) && r.sched.running == Some(t) && t in r.alive && r.early.None?
    requires n.sched.running.None? && n.sched.ready == r.sched.ready + [t]
    requires n.sched.threads == r.sched.threads[t := th] && t in r.sched.threads
    requires n.sched.vforkPending == r.sched.vforkPending
    requires n.sched.threadsFollowed == r.sched.threadsFollowed && n.sched.leader == r.sched.leader
    requires n.alive == r.alive[t := tr] && n.early.None? && n.clock == r.clock
    requires tr.proc == r.alive[t].proc && tr.born == r.alive[t].born && ThreadOk(n.sched, t, tr)
    requires |n.directed| == |n.sched.log|
    ensures Inv(n)
  {
    hide Grammar, ThreadOk, Identities, Placed, VforksOk, EarlyOk;
    RequeuedPlaced(r, n, t);
    TrackedAlive(r);
    UpdatedIdentities(r, n, t, tr);
    UpdatedThreads(r, n, t, th, tr);
    NobodyEarly(n);
  }

  lemma TrackedAlive(r: Rec)
    requires Identities(r)
    ensures r.sched.threads.Keys <= r.alive.Keys
  {
  }

  lemma NobodyEarly(r: Rec)
    requires r.early.None?
    ensures EarlyOk(r)
  {
  }

  lemma UpdatedThreads(r: Rec, n: Rec, t: Tid, th: Thread, tr: Tracee)
    requires forall u :: u in r.alive ==> ThreadOk(r.sched, u, r.alive[u])
    requires n.alive == r.alive[t := tr] && n.sched.threads == r.sched.threads[t := th]
    requires n.sched.running.None? && ThreadOk(n.sched, t, tr)
    ensures forall u :: u in n.alive ==> ThreadOk(n.sched, u, n.alive[u])
  {
    hide Grammar;
    forall u | u in n.alive ensures ThreadOk(n.sched, u, n.alive[u]) {
      if u != t {
        assert ThreadOk(r.sched, u, r.alive[u]);
      }
    }
  }

  lemma UpdatedIdentities(r: Rec, n: Rec, t: Tid, tr: Tracee)
    requires Identities(r) && t in r.alive && n.alive == r.alive[t := tr] && n.clock == r.clock
    requires tr.proc == r.alive[t].proc && tr.born == r.alive[t].born
    requires n.sched.threads.Keys <= r.alive.Keys
    ensures Identities(n)
  {
  }

  // What the scheduler does with each stop of the running thread, as one update.

  lemma SyscallShape(s: Sched, t: Tid, regs: SyscallRegs, mem: Memory)
    requires s.running == Some(t) && t in s.threads && t !in s.ready
    ensures Handle(s, PtraceSyscall(t, regs, mem))
         == s.(running := None, ready := s.ready + [t],
               log := s.log + Recorded(s, PtraceSyscall(t, regs, mem)),
               threads := s.threads[t := s.threads[t].(pendingEnter :=
                 if s.threads[t].pendingEnter.Some? then None else Some(regs))])
  {
  }

  lemma SignalShape(s: Sched, t: Tid, sig: Signal)
    requires s.running == Some(t) && t in s.threads && t !in s.ready
    ensures Handle(s, Stopped(t, sig))
         == s.(running := None, ready := s.ready + [t], log := s.log + Recorded(s, Stopped(t, sig)),
               threads := if sig == SIGSTOP then s.threads
                          else s.threads[t := s.threads[t].(resumeSignal := Some(sig))])
  {
  }

  lemma EventShape(s: Sched, t: Tid, event: PtraceEvent)
    requires s.running == Some(t) && t in s.threads && t !in s.ready
    ensures Handle(s, PtraceEventStop(t, event))
         == if event.Vfork?
            then s.(running := None, log := s.log + Recorded(s, PtraceEventStop(t, event)),
                    vforkPending := s.vforkPending[event.child := t])
            else s.(running := None, log := s.log + Recorded(s, PtraceEventStop(t, event)),
                    ready := s.ready + [t])
  {
  }

  lemma ExitShape(s: Sched, t: Tid, status: Status)
    requires (status.Exited? || status.Signaled?) && status.pid == t
    requires s.running == Some(t) && t in s.threads && t !in s.ready
    requires t in s.vforkPending ==>
        s.vforkPending[t] in s.threads && s.vforkPending[t] !in s.ready && s.vforkPending[t] != t
    ensures Handle(s, status)
         == s.(running := None, threads := s.threads - {t}, vforkPending := s.vforkPending - {t},
               log := s.log + Recorded(s, status),
               leaderExit := if t != s.leader then s.leaderExit
                             else if status.Exited? then Some(status.code) else None,
               ready := s.ready + (if t in s.vforkPending then [s.vforkPending[t]] else []))
  {
    WithoutAbsent(s.ready, t);
    if t !in s.vforkPending {
      assert s.vforkPending - {t} == s.vforkPending;
      assert s.ready + [] == s.ready;
    }
  }

  lemma FirstStopShape(s: Sched, t: Tid, sig: Signal)
    requires t !in s.threads && t !in s.ready
    ensures Handle(s, Stopped(t, sig))
         == s.(ready := s.ready + [t], threads := s.threads[t := NewThread],
               threadsFollowed := s.threadsFollowed + 1)
  {
  }

  lemma NextStop(rest: seq<Stop>, inside: bool)
    requires rest != [] && Grammar(rest, inside)
    ensures Grammar(rest[1..], if rest[0].Syscall? then !inside else inside)
    ensures rest[0].Spawn? ==> Grammar(rest[0].child.stops, false)
    ensures rest[0].Raise? ==> !inside
    ensures rest[0].Exit? || rest[0].Killed? ==> rest[1..] == []
  {
    assert StopOk(rest[0], inside);
  }

  lemma InvSyscall(r: Rec, t: Tid)
    requires Stopping(r, t) && r.alive[t].rest[0].Syscall? && Enabled(r, Own)
    ensures Inv(Report(r, Own))
  {
    hide Handle, Recorded, Grammar;
    var n := Report(r, Own);
    NextStop(r.alive[t].rest, r.sched.threads[t].pendingEnter.Some?);
    var th, stop := r.sched.threads[t], r.alive[t].rest[0];
    assert r.early.None? && ThreadOk(r.sched, t, r.alive[t]);
    SyscallShape(r.sched, t, stop.regs, stop.mem);
    OneRecord(r.sched, StatusOf(t, stop));
    InvRequeued(r, n, t, n.sched.threads[t], AfterStop(r.alive[t], th.pendingEnter));
  }

  lemma OneRecord(s: Sched, status: Status)
    ensures |Recorded(s, status)| <= 1
  {
  }

  lemma InvExec(r: Rec, t: Tid)
    requires Stopping(r, t) && r.alive[t].rest[0].Exec? && Enabled(r, Own)
    ensures Inv(Report(r, Own))
  {
    hide Handle, Recorded, Grammar;
    var n := Report(r, Own);
    NextStop(r.alive[t].rest, r.sched.threads[t].pendingEnter.Some?);
    var th := r.sched.threads[t];
    assert r.early.None? && ThreadOk(r.sched, t, r.alive[t]);
    EventShape(r.sched, t, OtherEvent);
    OneRecord(r.sched, PtraceEventStop(t, OtherEvent));
    assert r.sched.threads[t := th] == r.sched.threads;
    InvRequeued(r, n, t, th, AfterStop(r.alive[t], th.pendingEnter));
  }

  lemma InvRaise(r: Rec, t: Tid)
    requires Stopping(r, t) && r.alive[t].rest[0].Raise? && Enabled(r, Own)
    ensures Inv(Report(r, Own))
  {
    hide Handle, Recorded, Grammar;
    var n := Report(r, Own);
    NextStop(r.alive[t].rest, r.sched.threads[t].pendingEnter.Some?);
    var th, sig := r.sched.threads[t], r.alive[t].rest[0].sig;
    assert r.early.None? && ThreadOk(r.sched, t, r.alive[t]);
    SignalShape(r.sched, t, sig);
    OneRecord(r.sched, Stopped(t, sig));
    var tr := AfterStop(r.alive[t], th.pendingEnter);
    if sig == SIGSTOP {
      assert r.sched.threads[t := th] == r.sched.threads;
    } else {
      assert tr.raised == tr.delivered + [sig] by {
        assert r.alive[t].raised == r.alive[t].delivered + [];
      }
    }
    InvRequeued(r, n, t, n.sched.threads[t], tr);
  }

  lemma InvPreempt(r: Rec, t: Tid)
    requires Inv(r) && r.sched.running == Some(t) && Enabled(r, Preempt)
    ensures Inv(Report(r, Preempt))
  {
    hide Handle;
    var n := Report(r, Preempt);
    assert t in r.sched.threads && t in r.alive && ThreadOk(r.sched, t, r.alive[t]);
    SignalShape(r.sched, t, SIGSTOP);
    assert r.sched.threads[t := r.sched.threads[t]] == r.sched.threads && r.alive[t := r.alive[t]] == r.alive;
    InvRequeued(r, n, t, r.sched.threads[t], r.alive[t]);
  }

  lemma InvDied(r: Rec, n: Rec, t: Tid)
    requires Stopping(r, t) && Died(r, n, t)
    ensures Inv(n)
  {
    hide Grammar;
    ExitedPlaced(r, n, t);
    hide Placed, VforksOk;
    forall u | u in n.alive ensures ThreadOk(n.sched, u, n.alive[u]) {
      assert ThreadOk(r.sched, u, r.alive[u]);
    }
    assert Identities(n);
  }

  lemma InvExit(r: Rec, t: Tid)
    requires Stopping(r, t)
    requires (r.alive[t].rest[0].Exit? || r.alive[t].rest[0].Killed?) && Enabled(r, Own)
    ensures Inv(Report(r, Own))
  {
    hide Handle, Recorded, Grammar, Identities, ThreadOk;
    var n := Report(r, Own);
    var status := StatusOf(t, r.alive[t].rest[0]);
    assert r.early.None?;
    ExitShape(r.sched, t, status);
    OneRecord(r.sched, status);
    assert r.alive[t := AfterStop(r.alive[t], r.sched.threads[t].pendingEnter)] - {t} == r.alive - {t};
    InvDied(r, n, t);
  }

  /** `n` follows `r` by a spawn stop of `t`; the child is new unless it came early. */
  ghost predicate Spawned(r: Rec, n: Rec, t: Tid, child: Proc, vfork: bool, tr: Tracee) {
    var c := child.rec;
    && n.sched.running.None? && n.sched.threads == r.sched.threads
    && n.sched.threadsFollowed == r.sched.threadsFollowed && n.sched.leader == r.sched.leader
    && n.sched.ready == (if vfork then r.sched.ready else r.sched.ready + [t])
    && n.sched.vforkPending == (if vfork then r.sched.vforkPending[c := t] else r.sched.vforkPending)
    && n.early.None? && |n.directed| == |n.sched.log|
    && (if r.early.Some? then n.alive == r.alive[t := tr] && n.clock == r.clock
        else n.alive == r.alive[t := tr][c := Newborn(child, r.clock)] && n.clock == r.clock + 1)
  }

  lemma SpawnedPlaced(r: Rec, n: Rec, t: Tid, child: Proc, vfork: bool, tr: Tracee)
    requires Stopping(r, t) && Spawned(r, n, t, child, vfork, tr) && AboutToSpawn(r, child.rec)
    requires r.early.None? ==> Fresh(r, child)
    requires tr.born == r.alive[t].born
    ensures Placed(n) && VforksOk(n)
  {
    hide Grammar, ThreadOk;
    assert child.rec != t && child.rec !in r.sched.vforkPending;
    assert KeepsBirths(r, n) && n.alive[t].born < n.alive[child.rec].born;
    if vfork {
      VforkedPlaced(r, n, t, child.rec);
    } else {
      RequeuedPlaced(r, n, t);
    }
  }

  lemma InvSpawned(r: Rec, n: Rec, t: Tid, child: Proc, vfork: bool, tr: Tracee)
    requires Stopping(r, t) && Spawned(r, n, t, child, vfork, tr) && AboutToSpawn(r, child.rec)
    requires r.early.None? ==> Fresh(r, child)
    requires tr.proc == r.alive[t].proc && tr.born == r.alive[t].born && ThreadOk(n.sched, t, tr)
    requires Grammar(child.stops, false)
    ensures Inv(n)
  {
    hide Grammar;
    SpawnedPlaced(r, n, t, child, vfork, tr);
    hide Placed, VforksOk;
    forall u | u in n.alive ensures ThreadOk(n.sched, u, n.alive[u]) {
      if u in r.alive && u != t {
        assert ThreadOk(r.sched, u, r.alive[u]);
      }
    }
    SpawnedIdentities(r, n, t, child, vfork, tr);
  }

  lemma SpawnedIdentities(r: Rec, n: Rec, t: Tid, child: Proc, vfork: bool, tr: Tracee)
    requires Identities(r) && t in r.alive && Spawned(r, n, t, child, vfork, tr)
    requires r.early.None? ==> Fresh(r, child)
    requires tr.proc == r.alive[t].proc && tr.born == r.alive[t].born
    ensures Identities(n)
  {
  }

  lemma InvSpawn(r: Rec, t: Tid)
    requires Stopping(r, t) && r.alive[t].rest[0].Spawn? && Enabled(r, Own)
    ensures Inv(Report(r, Own))
  {
    hide Handle, Recorded, Grammar, Placed, VforksOk;
    var n := Report(r, Own);
    var stop := r.alive[t].rest[0];
    var event := StatusOf(t, stop).event;
    NextStop(r.alive[t].rest, r.sched.threads[t].pendingEnter.Some?);
    Unqueued(r, t);
    EventShape(r.sched, t, event);
    OneRecord(r.sched, PtraceEventStop(t, event));
    var tr := AfterStop(r.alive[t], r.sched.threads[t].pendingEnter);
    assert ThreadOk(n.sched, t, tr);
    assert Spawned(r, n, t, stop.child, stop.how == ByVfork, tr);
    InvSpawned(r, n, t, stop.child, stop.how == ByVfork, tr);
  }

  lemma Unqueued(r: Rec, t: Tid)
    requires Placed(r) && (r.sched.running == Some(t) || t !in r.sched.threads)
    ensures t !in r.sched.ready
  {
  }

  /** `n` follows `r` by the first stop of `t`, ahead of the spawn stop or after it. */
  ghost predicate FirstSeen(r: Rec, n: Rec, t: Tid) {
    && t !in r.sched.threads
    && n.sched == r.sched.(ready := r.sched.ready + [t], threads := r.sched.threads[t := NewThread],
                           threadsFollowed := r.sched.threadsFollowed + 1)
    && n.directed == r.directed
    && (if t in r.alive then n.alive == r.alive && n.early == r.early && n.clock == r.clock
        else
          && r.early.None? && AboutToSpawn(r, t)
          && var child := r.alive[r.sched.running.value].rest[0].child;
             Fresh(r, child) && Grammar(child.stops, false)
             && n.alive == r.alive[t := Newborn(child, r.clock)] && n.early == Some(t) && n.clock == r.clock + 1)
  }

  lemma FirstSeenThreads(r: Rec, n: Rec, t: Tid)
    requires Inv(r) && FirstSeen(r, n, t)
    ensures forall u :: u in n.alive ==> ThreadOk(n.sched, u, n.alive[u])
  {
    hide Grammar, Placed, VforksOk;
    forall u | u in n.alive ensures ThreadOk(n.sched, u, n.alive[u]) {
      if u in r.alive {
        assert ThreadOk(r.sched, u, r.alive[u]);
      }
    }
  }

  lemma InvFirstSeen(r: Rec, n: Rec, t: Tid)
    requires Inv(r) && FirstSeen(r, n, t)
    ensures Inv(n)
  {
    hide Grammar, ThreadOk;
    FirstSeenPlaced(r, n, t);
    FirstSeenThreads(r, n, t);
    FirstSeenRest(r, n, t);
  }

  lemma FirstSeenRest(r: Rec, n: Rec, t: Tid)
    requires Inv(r) && FirstSeen(r, n, t)
    ensures Identities(n) && EarlyOk(n)
  {
    hide Grammar, ThreadOk, NoDuplicates, Suspended;
    if t in r.alive {
      assert EarlyOk(n);
    } else {
      assert t !in r.sched.vforkPending;
      assert EarlyOk(n);
    }
  }

  lemma InvFirstStop(r: Rec, t: Tid, sig: Signal)
    requires Inv(r) && Enabled(r, FirstStop(t, sig))
    ensures Inv(Report(r, FirstStop(t, sig)))
  {
    hide Handle, Grammar, VforksOk, Placed;
    var n := Report(r, FirstStop(t, sig));
    Unqueued(r, t);
    FirstStopShape(r.sched, t, sig);
    if t !in r.alive {
      var parent := r.sched.running.value;
      assert parent in r.sched.threads by { RunningTracked(r); }
      assert ThreadOk(r.sched, parent, r.alive[parent]);
      NextStop(r.alive[parent].rest, r.sched.threads[parent].pendingEnter.Some?);
    }
    InvFirstSeen(r, n, t);
  }

  lemma RunningTracked(r: Rec)
    requires Placed(r) && r.sched.running.Some?
    ensures r.sched.running.value in r.sched.threads
  {
  }

  lemma InvReport(r: Rec, choice: Choice)
    requires Inv(r) && Enabled(r, choice)
    ensures Inv(Report(r, choice))
  {
    hide Handle, Recorded, Grammar, Report, Placed, VforksOk, Identities;
    match choice
    case Preempt => InvPreempt(r, r.sched.running.value);
    case FirstStop(t, sig) => InvFirstStop(r, t, sig);
    case Own =>
      var t := r.sched.running.value;
      RunningTracked(r);
      assert ThreadOk(r.sched, t, r.alive[t]);
      match r.alive[t].rest[0] {
        case Syscall(_, _) => InvSyscall(r, t);
        case Spawn(_, _) => InvSpawn(r, t);
        case Exec => InvExec(r, t);
        case Raise(_) => InvRaise(r, t);
        case Exit(_) => InvExit(r, t);
        case Killed(_) => InvExit(r, t);
      }
  }

  /** Every state a recording can reach satisfies the invariant. */
  lemma {:induction false} InvReachable(r: Rec, choices: seq<Choice>)
    requires Inv(r) && Admissible(r, choices)
    ensures Inv(RecordAll(r, choices))
    decreases |choices|
  {
    hide Inv, Resume, Report, Enabled;
    if choices != [] {
      InvResume(r);
      InvReport(Resume(r), choices[0]);
      InvReachable(Report(Resume(r), choices[0]), choices[1..]);
    }
  }

  // ---- No stranded thread ----------------------------------------------------

  /** A tracked thread is in exactly one place, and queued at most once. */
  ghost predicate OnePlace(s: Sched, t: Tid) {
    var running, queued, suspended := s.running == Some(t), t in s.ready, Suspended(s, t);
    && (running || queued || suspended)
    && !(running && queued) && !(running && suspended) && !(queued && suspended)
    && NoDuplicates(s.ready)
  }

  lemma YoungestOf(alive: map<Tid, Tracee>, ts: set<Tid>) returns (y: Tid)
    requires ts != {} && ts <= alive.Keys
    ensures y in ts && forall t :: t in ts ==> alive[t].born <= alive[y].born
  {
    y :| y in ts;
    var others := ts - {y};
    assert forall t :: t in ts ==> t == y || t in others;
    if others != {} {
      var z := YoungestOf(alive, others);
      y := if alive[z].born > alive[y].born then z else y;
    }
  }

  /** In every reachable state each tracked thread is running, queued once or
      vfork-suspended, and only one of these. If nothing runs and nothing is
      queued while threads remain, the youngest of them waits for a vfork child
      whose first stop has yet to be reported: the recorder cannot be stuck. A
      live thread the recorder does not track has made none of its stops; so a
      recording that is over, when no thread is tracked, has followed every
      thread to its death but those never seen. */
  lemma NoStrandedThread(leader: Proc, choices: seq<Choice>)
    requires Grammar(leader.stops, false) && Admissible(Start(leader), choices)
    ensures var r := RecordAll(Start(leader), choices);
            && (forall t :: t in r.sched.threads ==> OnePlace(r.sched, t))
            && (r.sched.threads != map[] && r.sched.running.None? && r.sched.ready == [] ==>
                  exists c :: c in r.sched.vforkPending && c in r.alive && c !in r.sched.threads)
            && (forall t :: t in r.alive && t !in r.sched.threads ==> r.alive[t].rest == r.alive[t].proc.stops)
  {
    hide Admissible, RecordAll, Inv;
    InvStart(leader);
    InvReachable(Start(leader), choices);
    NobodyStranded(RecordAll(Start(leader), choices));
    UnseenAreUntouched(RecordAll(Start(leader), choices));
  }

  lemma UnseenAreUntouched(r: Rec)
    requires Inv(r)
    ensures forall t :: t in r.alive && t !in r.sched.threads ==>
              r.alive[t] == Newborn(r.alive[t].proc, r.alive[t].born)
  {
    hide Grammar, Placed, VforksOk;
    forall t | t in r.alive && t !in r.sched.threads ensures r.alive[t] == Newborn(r.alive[t].proc, r.alive[t].born) {
      assert ThreadOk(r.sched, t, r.alive[t]);
    }
  }

  lemma NobodyStranded(r: Rec)
    requires Inv(r)
    ensures forall t :: t in r.sched.threads ==> OnePlace(r.sched, t)
    ensures r.sched.threads != map[] && r.sched.running.None? && r.sched.ready == [] ==>
              exists c :: c in r.sched.vforkPending && c in r.alive && c !in r.sched.threads
  {
    hide ThreadOk;
    if r.sched.threads != map[] && r.sched.running.None? && r.sched.ready == [] {
      var y := YoungestOf(r.alive, r.sched.threads.Keys);
      assert Suspended(r.sched, y);
      var c :| c in r.sched.vforkPending && r.sched.vforkPending[c] == y;
      assert c !in r.sched.threads;
    }
  }
}
