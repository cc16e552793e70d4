/** Every log the recorder writes is accepted by the schedule-enforcing replayer. */
module Simulation {
  import opened Common
  import opened Injection
  import opened Scheduling
  import opened SchedulerProperties
  import opened Recording
  import opened TidMapping
  import opened MtReplay

  /** Consume events in order, numbered from the cursor, until the leader has exited. */
  ghost function Feed(p: Rep, events: seq<Event>): Outcome<Rep>
    decreases |events|
  {
    if events == [] || p.finished.Some? then Ok(p)
    else match Consume(p, Record(p.cursor, events[0]))
      case Err(e) => Err(e)
      case Ok(n) => Feed(n, events[1..])
  }

  lemma {:induction false} FeedAppend(p: Rep, a: seq<Event>, b: seq<Event>)
    ensures Feed(p, a + b) == match Feed(p, a) case Ok(n) => Feed(n, b) case Err(e) => Err(e)
    decreases |a|
  {
    hide Consume;
    if a == [] {
      assert a + b == b;
    } else if p.finished.None? {
      assert (a + b)[0] == a[0] && (a + b)[1..] == a[1..] + b;
      match Consume(p, Record(p.cursor, a[0]))
      case Err(_) =>
      case Ok(n) => FeedAppend(n, a[1..], b);
    }
  }

  // ---- The simulation relation ----------------------------------------------

  /** The live pid of every thread whose birth is in the log. */
  ghost function Bindings(r: Rec): map<Tid, Pid> {
    map t | t in r.alive && r.early != Some(t) :: r.alive[t].proc.live
  }

  ghost function ReplayPending(s: Sched, t: Tid): Option<PendingSys> {
    if t in s.threads && s.threads[t].pendingEnter.Some?
    then Some(Classify(s.threads[t].pendingEnter.value.nr, s.threads[t].pendingEnter.value.args))
    else None
  }

  /** A twin has the same stops ahead (but for execs), until the thread reports a
      `SIGSTOP`: that leaves no record, so the twin has yet to meet it. */
  ghost predicate Ahead(tr: Tracee, rest: seq<Stop>) {
    if tr.held then SkipExecs(rest) != [] && SkipExecs(rest)[0] == Raise(SIGSTOP)
    else SkipExecs(rest) == SkipExecs(tr.rest)
  }

  /** Whoever was a twin of `a` is still one of `b`. */
  ghost predicate StillAhead(a: Tracee, b: Tracee) {
    if b.held then a.held || (SkipExecs(a.rest) != [] && SkipExecs(a.rest)[0] == Raise(SIGSTOP))
    else !a.held && SkipExecs(a.rest) == SkipExecs(b.rest)
  }

  /** A thread and its replayed twin: the same stops ahead, the same
      syscall in flight, same results captured and fed, same signals. */
  ghost predicate Twins(s: Sched, t: Tid, tr: Tracee, proc: LiveProc, rt: ThreadRt) {
    && Ahead(tr, proc.rest)
    && rt.pending == ReplayPending(s, t)
    && proc.injected == tr.captured
    && proc.delivered + AsSeq(rt.resumeSignal) == tr.raised
    && (rt.pending.Some? ==> rt.resumeSignal.None?)
  }

  ghost predicate Agrees(r: Rec, procs: map<Pid, LiveProc>, threads: map<Pid, ThreadRt>, t: Tid) {
    t in r.alive
    && var live := r.alive[t].proc.live;
       live in procs && live in threads && Twins(r.sched, t, r.alive[t], procs[live], threads[live])
  }

  /** Replay knows every logged thread under its live pid and mirrors its state. */
  ghost predicate Linked(r: Rec, procs: map<Pid, LiveProc>, threads: map<Pid, ThreadRt>, tids: TidMap) {
    && tids.Inverse() && tids.toLive == Bindings(r)
    && procs.Keys == tids.toRecorded.Keys && threads.Keys == procs.Keys
    && (forall t :: t in Bindings(r) ==> Agrees(r, procs, threads, t))
  }

  /** Before the first record the leader is the only thread, and not yet bound. */
  ghost predicate AtEntry(r: Rec, p: Rep) {
    && p.expectedTid.None? && p.tidmap == EmptyTidMap
    && r.sched.lastScheduled == Some(r.sched.leader)
    && Linked(r, p.procs, p.threads, LeaderOnlyMap(r.sched.leader, p.leader))
  }

  function LeaderOnlyMap(tid: Tid, live: Pid): TidMap {
    TidMap(map[tid := live], map[live := tid])
  }

  ghost predicate Sim(r: Rec, p: Rep) {
    && Inv(r) && p.finished.None? && p.cursor == |r.sched.log| && p.stepped == r.directed
    && r.sched.leader in r.alive && r.early != Some(r.sched.leader)
    && r.alive[r.sched.leader].proc.live == p.leader
    && (if r.sched.log == [] then AtEntry(r, p)
        else p.expectedTid == r.sched.lastScheduled && Linked(r, p.procs, p.threads, p.tidmap))
  }

  lemma SimStart(leader: Proc)
    requires Grammar(leader.stops, false)
    ensures Sim(Start(leader), Launch(leader))
  {
    InvStart(leader);
    LinkedStart(leader);
    hide Inv, Grammar, Linked;
  }

  lemma LinkedStart(leader: Proc)
    ensures var r, p := Start(leader), Launch(leader);
            Linked(r, p.procs, p.threads, LeaderOnlyMap(leader.rec, leader.live))
  {
    var r, p := Start(leader), Launch(leader);
    assert Bindings(r) == map[leader.rec := leader.live];
    assert Agrees(r, p.procs, p.threads, leader.rec);
    hide Agrees, Bindings;
  }

  lemma RunningBound(r: Rec, t: Tid)
    requires Inv(r) && r.sched.running == Some(t)
    ensures t in r.sched.threads && t in r.alive && r.early != Some(t) && r.sched.lastScheduled == Some(t)
    ensures t in Bindings(r) && Bindings(r)[t] == r.alive[t].proc.live
  {
    hide ThreadOk, VforksOk;
  }

  lemma AttendBound(p: Rep, t: Tid, r: Record)
    requires p.expectedTid == Some(t) == r.event.tid && t in p.tidmap.toLive
    ensures Attend(p, r) == Ok((p, t, p.tidmap.toLive[t]))
  {
  }

  lemma AttendFirst(p: Rep, t: Tid, r: Record)
    requires p.expectedTid.None? && r.event.tid == Some(t) && p.tidmap == EmptyTidMap
    ensures Attend(p, r)
         == Ok((p.(expectedTid := Some(t), tidmap := LeaderOnlyMap(t, p.leader)), t, p.leader))
  {
  }

  /** The checks on a record of the running thread pass and direct replay to its twin. */
  lemma AttendRunning(r: Rec, p: Rep, t: Tid, e: Event) returns (p1: Rep)
    requires Sim(r, p) && r.sched.running == Some(t) && e.tid == Some(t)
    ensures t in r.alive && r.early != Some(t)
    ensures Attend(p, Record(p.cursor, e)) == Ok((p1, t, r.alive[t].proc.live))
    ensures Linked(r, p.procs, p.threads, p1.tidmap)
    ensures p1 == p.(expectedTid := Some(t), tidmap := p1.tidmap)
  {
    RunningBound(r, t);
    hide Inv, Agrees, Attend;
    if r.sched.log == [] {
      assert t in LeaderOnlyMap(r.sched.leader, p.leader).toLive;
      AttendFirst(p, t, Record(p.cursor, e));
      p1 := p.(expectedTid := Some(t), tidmap := LeaderOnlyMap(t, p.leader));
    } else {
      AttendBound(p, t, Record(p.cursor, e));
      p1 := p;
    }
  }

  // ---- What replay does with each record, as one update ----------------------------

  /** The process `live` is next to report `stop`, with `rest` to follow. */
  ghost predicate Next(p: Rep, live: Pid, stop: Stop, rest: seq<Stop>) {
    && live in p.procs && live in p.threads
    && SkipExecs(p.procs[live].rest) == [stop] + rest
  }

  function Moved(p: Rep, live: Pid, rest: seq<Stop>, sig: Option<Signal>): LiveProc
    requires live in p.procs
  {
    LiveProc(rest, p.procs[live].delivered + AsSeq(sig), p.procs[live].injected)
  }

  lemma ConsumeEnter(p: Rep, r: Record, p1: Rep, t: Tid, live: Pid, stop: Stop, rest: seq<Stop>)
    requires Attend(p, r) == Ok((p1, t, live)) && Next(p1, live, stop, rest) && stop.Syscall?
    requires r.event.body.SyscallEnter? && r.event.body.nr == stop.regs.nr
    ensures Consume(p, r)
         == Ok(Advance(p1.(procs := p1.procs[live := Moved(p1, live, rest, p1.threads[live].resumeSignal)],
                           threads := p1.threads[live :=
                             ThreadRt(Some(Classify(stop.regs.nr, stop.regs.args)), None)],
                           lastRegs := Some(stop.regs)), r.seqNo, Some(live)))
  {
    hide Attend;
    assert ([stop] + rest)[1..] == rest;
    var rt := ThreadRt(p1.threads[live].pending, None);
    assert p1.threads[live := rt][live := rt.(pending := Some(Classify(stop.regs.nr, stop.regs.args)))]
        == p1.threads[live := ThreadRt(Some(Classify(stop.regs.nr, stop.regs.args)), None)];
  }

  /** The result a pending syscall is fed: none for a real one. */
  function FedBy(pending: PendingSys, data: seq<byte>, ret: i64): seq<Injected> {
    if pending.suppressed && pending.injectAddr.Some?
    then [Injected(pending.injectAddr.value, data, ret)] else []
  }

  lemma ConsumeExit(p: Rep, r: Record, p1: Rep, t: Tid, live: Pid, stop: Stop, rest: seq<Stop>, moved: LiveProc)
    requires Attend(p, r) == Ok((p1, t, live)) && Next(p1, live, stop, rest) && stop.Syscall?
    requires r.event.body.SyscallExit? && p1.threads[live].pending.Some?
    requires moved == LiveProc(rest, p1.procs[live].delivered, p1.procs[live].injected
               + FedBy(p1.threads[live].pending.value, r.event.body.data, r.event.body.ret))
    ensures Consume(p, r)
         == Ok(Advance(p1.(procs := p1.procs[live := moved],
                           threads := p1.threads[live := ThreadRt(None, p1.threads[live].resumeSignal)],
                           lastRegs := Some(stop.regs)), r.seqNo, Some(live)))
  {
    hide Attend;
    assert ([stop] + rest)[1..] == rest;
    var pending := p1.threads[live].pending.value;
    var plain := Moved(p1, live, rest, None);
    assert plain == LiveProc(rest, p1.procs[live].delivered, p1.procs[live].injected);
    if pending.suppressed && pending.injectAddr.Some? {
      assert p1.procs[live := plain][live := moved] == p1.procs[live := moved];
    } else {
      assert plain == moved;
    }
  }

  lemma ConsumeSignal(p: Rep, r: Record, p1: Rep, t: Tid, live: Pid, stop: Stop, rest: seq<Stop>)
    requires Attend(p, r) == Ok((p1, t, live)) && Next(p1, live, stop, rest) && stop.Raise?
    requires r.event.body.Delivery? && r.event.body.signum == stop.sig
    ensures Consume(p, r)
         == Ok(Advance(p1.(procs := p1.procs[live := Moved(p1, live, rest, p1.threads[live].resumeSignal)],
                           threads := p1.threads[live := ThreadRt(p1.threads[live].pending, Some(stop.sig))]),
                       r.seqNo, Some(live)))
  {
    hide Attend;
    assert ([stop] + rest)[1..] == rest;
    var rt := ThreadRt(p1.threads[live].pending, None);
    assert p1.threads[live := rt][live := rt.(resumeSignal := Some(stop.sig))]
        == p1.threads[live := ThreadRt(p1.threads[live].pending, Some(stop.sig))];
  }

  lemma ConsumeSpawn(p: Rep, r: Record, p1: Rep, t: Tid, live: Pid, stop: Stop, rest: seq<Stop>)
      returns (q: Rep)
    requires Attend(p, r) == Ok((p1, t, live)) && Next(p1, live, stop, rest) && stop.Spawn?
    requires r.event.body.ThreadSpawn? && r.event.body.child == stop.child.rec
    requires p1.tidmap.Inverse() && stop.child.rec !in p1.tidmap.toLive && stop.child.live !in p1.tidmap.toRecorded
    ensures Consume(p, r) == Ok(q)
    ensures q == Advance(p1.(procs := p1.procs[live := Moved(p1, live, rest, p1.threads[live].resumeSignal)]
                                              [stop.child.live := LiveProc(stop.child.stops, [], [])],
                             threads := p1.threads[live := ThreadRt(p1.threads[live].pending, None)]
                                                  [stop.child.live := NewThreadRt],
                             tidmap := TidMap(p1.tidmap.toLive[stop.child.rec := stop.child.live],
                                              p1.tidmap.toRecorded[stop.child.live := stop.child.rec]),
                             vforkSuspended := q.vforkSuspended), r.seqNo, Some(live))
  {
    hide Attend;
    assert ([stop] + rest)[1..] == rest;
    q := Consume(p, r).value;
  }

  lemma ConsumeDeath(p: Rep, r: Record, p1: Rep, t: Tid, live: Pid, stop: Stop, rest: seq<Stop>)
      returns (q: Rep)
    requires Attend(p, r) == Ok((p1, t, live)) && Next(p1, live, stop, rest) && IsDeath(stop)
    requires r.event.body.ThreadExit?
    ensures Consume(p, r) == Ok(q)
    ensures q == Advance(p1.(procs := p1.procs - {live}, threads := p1.threads - {live},
                             tidmap := p1.tidmap.Unbind(t), vforkSuspended := q.vforkSuspended,
                             finished := if live != p.leader then p1.finished else Some(ExitOf(stop))),
                         r.seqNo, Some(live))
  {
    hide Attend;
    q := Consume(p, r).value;
    assert p1.threads[live := p1.threads[live].(resumeSignal := None)] - {live} == p1.threads - {live};
  }

  // ---- The relation after each stop ------------------------------------------------

  /** Only thread `t` changed, and it still has its twin. */
  lemma LinkedUpdate(r: Rec, n: Rec, procs: map<Pid, LiveProc>, threads: map<Pid, ThreadRt>, tids: TidMap,
                     t: Tid, tr: Tracee, proc: LiveProc, rt: ThreadRt)
    requires Identities(r) && Linked(r, procs, threads, tids) && t in r.alive && r.early != Some(t)
    requires n.alive == r.alive[t := tr] && tr.proc == r.alive[t].proc && n.early == r.early
    requires forall u :: u != t ==> ReplayPending(n.sched, u) == ReplayPending(r.sched, u)
    requires Twins(n.sched, t, tr, proc, rt)
    ensures var live := tr.proc.live; Linked(n, procs[live := proc], threads[live := rt], tids)
  {
    hide Agrees;
    var live := tr.proc.live;
    assert Bindings(n) == Bindings(r);
    assert t in Bindings(r) && live == tids.toLive[t];
    hide Bindings;
    forall u | u in Bindings(n) ensures Agrees(n, procs[live := proc], threads[live := rt], u) {
      AgreesUpdate(r, n, procs, threads, t, tr, proc, rt, u);
    }
  }

  lemma AgreesUpdate(r: Rec, n: Rec, procs: map<Pid, LiveProc>, threads: map<Pid, ThreadRt>,
                     t: Tid, tr: Tracee, proc: LiveProc, rt: ThreadRt, u: Tid)
    requires Identities(r) && Agrees(r, procs, threads, u) && t in r.alive
    requires n.alive == r.alive[t := tr] && tr.proc == r.alive[t].proc
    requires u != t ==> ReplayPending(n.sched, u) == ReplayPending(r.sched, u)
    requires Twins(n.sched, t, tr, proc, rt)
    ensures Agrees(n, procs[tr.proc.live := proc], threads[tr.proc.live := rt], u)
  {
    hide SkipExecs, ReplayPending;
  }

  lemma FeedOne(p: Rep, e: Event)
    requires p.finished.None?
    ensures Feed(p, [e]) == Consume(p, Record(p.cursor, e))
  {
    hide Consume;
    match Consume(p, Record(p.cursor, e))
    case Err(_) =>
    case Ok(n) => assert Feed(n, [e][1..]) == Ok(n);
  }

  /** `n` follows `r` by a recorded stop of `t` that left it as `tr`; `q` follows
      `p` by consuming that record. */
  ghost predicate InStep(r: Rec, n: Rec, p: Rep, p1: Rep, q: Rep, t: Tid, e: Event, tr: Tracee,
                         proc: LiveProc, rt: ThreadRt) {
    && n.alive == r.alive[t := tr] && n.early == r.early && n.sched.leader == r.sched.leader
    && n.sched.log == r.sched.log + [e] && n.sched.lastScheduled == Some(t)
    && n.directed == r.directed + [Some(tr.proc.live)]
    && p1 == p.(expectedTid := Some(t), tidmap := p1.tidmap)
    && q == Advance(p1.(procs := p1.procs[tr.proc.live := proc], threads := p1.threads[tr.proc.live := rt],
                        lastRegs := q.lastRegs), p.cursor, Some(tr.proc.live))
  }

  lemma SimInStep(r: Rec, n: Rec, p: Rep, p1: Rep, q: Rep, t: Tid, e: Event, tr: Tracee,
                  proc: LiveProc, rt: ThreadRt)
    requires Sim(r, p) && Inv(n) && r.sched.running == Some(t) && t in r.alive && r.early != Some(t)
    requires Linked(r, p.procs, p.threads, p1.tidmap) && InStep(r, n, p, p1, q, t, e, tr, proc, rt)
    requires tr.proc == r.alive[t].proc
    requires forall u :: u != t ==> ReplayPending(n.sched, u) == ReplayPending(r.sched, u)
    requires Twins(n.sched, t, tr, proc, rt)
    ensures Sim(n, q)
  {
    hide Twins, ReplayPending, Inv, Linked;
    InvIdentities(r);
    LinkedUpdate(r, n, p.procs, p.threads, p1.tidmap, t, tr, proc, rt);
  }

  lemma OwnReport(r: Rec, t: Tid)
    requires Stopping(r, t) && Enabled(r, Own) && !r.alive[t].rest[0].Spawn?
    requires !r.alive[t].rest[0].Exit? && !r.alive[t].rest[0].Killed?
    ensures var status := StatusOf(t, r.alive[t].rest[0]);
            Report(r, Own) == r.(sched := Handle(r.sched, status),
              alive := r.alive[t := AfterStop(r.alive[t], r.sched.threads[t].pendingEnter)],
              directed := r.directed + if Recorded(r.sched, status) != [] then [Some(r.alive[t].proc.live)] else [])
  {
    hide Inv, Handle, Recorded, ThreadOk;
  }

  /** The replayed twin is next to report the stop the recorder is handling. */
  lemma TwinNext(r: Rec, p: Rep, p1: Rep, t: Tid)
    requires Stopping(r, t) && !r.alive[t].rest[0].Exec? && r.early != Some(t) && !r.alive[t].held
    requires Linked(r, p.procs, p.threads, p1.tidmap) && p1.procs == p.procs && p1.threads == p.threads
    ensures var live := r.alive[t].proc.live;
            && Next(p1, live, r.alive[t].rest[0], r.alive[t].rest[1..])
            && Twins(r.sched, t, r.alive[t], p.procs[live], p.threads[live])
  {
    hide Inv, Twins, ThreadOk;
    assert t in Bindings(r);
    assert Agrees(r, p.procs, p.threads, t);
    var rest := r.alive[t].rest;
    assert rest == [rest[0]] + rest[1..];
    assert SkipExecs(rest) == rest;
    TwinRest(r.sched, t, r.alive[t], p.procs[r.alive[t].proc.live], p.threads[r.alive[t].proc.live]);
  }

  lemma TwinRest(s: Sched, t: Tid, tr: Tracee, proc: LiveProc, rt: ThreadRt)
    requires Twins(s, t, tr, proc, rt)
    ensures Ahead(tr, proc.rest)
  {
  }

  lemma StoppingUnqueued(r: Rec, t: Tid)
    requires Stopping(r, t)
    ensures t !in r.sched.ready
  {
    Unqueued(r, t);
  }

  lemma SimEnter(r: Rec, p: Rep, t: Tid) returns (q: Rep)
    requires Sim(r, p) && Stopping(r, t) && r.alive[t].rest[0].Syscall? && Enabled(r, Own) && !r.alive[t].held
    requires r.sched.threads[t].pendingEnter.None?
    ensures Feed(p, Recorded(r.sched, StatusOf(t, r.alive[t].rest[0]))) == Ok(q) && Sim(Report(r, Own), q)
  {
    hide Inv, Handle, Consume, Attend, Report, Linked, ThreadOk, SkipExecs, AtEntry;
    var n, tr := Report(r, Own), r.alive[t];
    var stop, live := tr.rest[0], tr.proc.live;
    var e := Event(Some(t), SyscallEnter(stop.regs.nr, stop.regs.args));
    assert Recorded(r.sched, StatusOf(t, stop)) == [e];
    OwnReport(r, t);
    InvSyscall(r, t);
    RunningBound(r, t);
    var p1 := AttendRunning(r, p, t, e);
    TwinNext(r, p, p1, t);
    ConsumeEnter(p, Record(p.cursor, e), p1, t, live, stop, tr.rest[1..]);
    FeedOne(p, e);
    q := Consume(p, Record(p.cursor, e)).value;
    StoppingUnqueued(r, t);
    SyscallShape(r.sched, t, stop.regs, stop.mem);
    SimInStep(r, n, p, p1, q, t, e, AfterStop(tr, None), q.procs[live], q.threads[live]);
  }

  lemma SimLeave(r: Rec, p: Rep, t: Tid) returns (q: Rep)
    requires Sim(r, p) && Stopping(r, t) && r.alive[t].rest[0].Syscall? && Enabled(r, Own) && !r.alive[t].held
    requires r.sched.threads[t].pendingEnter.Some?
    ensures Feed(p, Recorded(r.sched, StatusOf(t, r.alive[t].rest[0]))) == Ok(q) && Sim(Report(r, Own), q)
  {
    hide Inv, Handle, Consume, Attend, Report, Linked, ThreadOk, SkipExecs, AtEntry;
    var n, tr, enter := Report(r, Own), r.alive[t], r.sched.threads[t].pendingEnter.value;
    var stop, live := tr.rest[0], tr.proc.live;
    var e := Event(Some(t), SyscallExit(enter.nr, stop.regs.ret, CapturedData(enter, stop.regs.ret, stop.mem)));
    assert Recorded(r.sched, StatusOf(t, stop)) == [e];
    OwnReport(r, t);
    InvSyscall(r, t);
    RunningBound(r, t);
    var p1 := AttendRunning(r, p, t, e);
    TwinNext(r, p, p1, t);
    var tr' := AfterStop(tr, Some(enter));
    var moved := LiveProc(tr.rest[1..], p.procs[live].delivered, tr'.captured);
    ConsumeExit(p, Record(p.cursor, e), p1, t, live, stop, tr.rest[1..], moved);
    FeedOne(p, e);
    q := Consume(p, Record(p.cursor, e)).value;
    StoppingUnqueued(r, t);
    SyscallShape(r.sched, t, stop.regs, stop.mem);
    SimInStep(r, n, p, p1, q, t, e, tr', moved, q.threads[live]);
  }

  lemma SimRaise(r: Rec, p: Rep, t: Tid) returns (q: Rep)
    requires Sim(r, p) && Stopping(r, t) && r.alive[t].rest[0].Raise? && Enabled(r, Own)
    requires r.alive[t].rest[0].sig != SIGSTOP && !r.alive[t].held
    ensures Feed(p, Recorded(r.sched, StatusOf(t, r.alive[t].rest[0]))) == Ok(q) && Sim(Report(r, Own), q)
  {
    hide Inv, Handle, Consume, Attend, Report, Linked, SkipExecs, AtEntry, Grammar;
    var n, tr := Report(r, Own), r.alive[t];
    var stop, live := tr.rest[0], tr.proc.live;
    NextStop(tr.rest, r.sched.threads[t].pendingEnter.Some?);
    var e := Event(Some(t), Delivery(stop.sig));
    assert Recorded(r.sched, StatusOf(t, stop)) == [e];
    OwnReport(r, t);
    InvRaise(r, t);
    RunningBound(r, t);
    var p1 := AttendRunning(r, p, t, e);
    TwinNext(r, p, p1, t);
    ConsumeSignal(p, Record(p.cursor, e), p1, t, live, stop, tr.rest[1..]);
    FeedOne(p, e);
    q := Consume(p, Record(p.cursor, e)).value;
    StoppingUnqueued(r, t);
    SignalShape(r.sched, t, stop.sig);
    SimInStep(r, n, p, p1, q, t, e, AfterStop(tr, None), q.procs[live], q.threads[live]);
  }

  /** A stop that leaves no record changes nothing replay can see. */
  lemma SimSilent(r: Rec, n: Rec, p: Rep)
    requires Sim(r, p) && Inv(n)
    requires n.sched.log == r.sched.log && n.directed == r.directed && n.sched.leader == r.sched.leader
    requires r.sched.log == [] || n.sched.lastScheduled == r.sched.lastScheduled
    requires n.sched.lastScheduled == Some(n.sched.leader) || r.sched.log != []
    requires Bindings(n) == Bindings(r)
    requires forall t :: t in Bindings(r) ==>
        && t in n.alive && n.alive[t].proc == r.alive[t].proc
        && StillAhead(r.alive[t], n.alive[t])
        && n.alive[t].captured == r.alive[t].captured && n.alive[t].raised == r.alive[t].raised
        && ReplayPending(n.sched, t) == ReplayPending(r.sched, t)
    ensures Sim(n, p)
  {
    hide Inv, SkipExecs, ReplayPending;
    assert r.sched.leader in Bindings(r);
    var tids := if r.sched.log == [] then LeaderOnlyMap(r.sched.leader, p.leader) else p.tidmap;
    assert Linked(r, p.procs, p.threads, tids);
    forall t | t in Bindings(n) ensures Agrees(n, p.procs, p.threads, t) {
      assert Agrees(r, p.procs, p.threads, t);
    }
    assert Linked(n, p.procs, p.threads, tids);
  }

  lemma SimExec(r: Rec, p: Rep, t: Tid)
    requires Sim(r, p) && Stopping(r, t) && r.alive[t].rest[0].Exec? && Enabled(r, Own)
    ensures Recorded(r.sched, StatusOf(t, r.alive[t].rest[0])) == [] && Sim(Report(r, Own), p)
  {
    hide Inv, Handle, Report, Linked, ThreadOk;
    var n := Report(r, Own);
    OwnReport(r, t);
    InvExec(r, t);
    RunningBound(r, t);
    StoppingUnqueued(r, t);
    EventShape(r.sched, t, OtherEvent);
    assert Bindings(n) == Bindings(r);
    SimSilent(r, n, p);
  }

  /** A `SIGSTOP` of the thread's own leaves replay as it is. */
  lemma SimHold(r: Rec, p: Rep, t: Tid)
    requires Sim(r, p) && Stopping(r, t) && r.alive[t].rest[0] == Raise(SIGSTOP) && Enabled(r, Own)
    ensures Recorded(r.sched, StatusOf(t, r.alive[t].rest[0])) == [] && Sim(Report(r, Own), p)
  {
    hide Inv, Handle, Report, Linked, ThreadOk;
    var n := Report(r, Own);
    OwnReport(r, t);
    InvRaise(r, t);
    RunningBound(r, t);
    StoppingUnqueued(r, t);
    SignalShape(r.sched, t, SIGSTOP);
    assert Bindings(n) == Bindings(r);
    SimSilent(r, n, p);
  }

  /** The next record of a thread that has reported a `SIGSTOP` finds its twin at
      that stop, which fits no record. */
  lemma SimHeld(r: Rec, p: Rep, t: Tid)
    requires Sim(r, p) && Stopping(r, t) && r.alive[t].held
    requires Recorded(r.sched, StatusOf(t, r.alive[t].rest[0])) != []
    ensures Feed(p, Recorded(r.sched, StatusOf(t, r.alive[t].rest[0]))) == Err(ScheduleDiverged(p.cursor))
  {
    hide Inv, Consume, Attend, Linked, ThreadOk, AtEntry;
    var e := Recorded(r.sched, StatusOf(t, r.alive[t].rest[0]))[0];
    assert Recorded(r.sched, StatusOf(t, r.alive[t].rest[0])) == [e];
    var p1 := AttendRunning(r, p, t, e);
    HeldNext(r, p, p1, t);
    ConsumeHeld(p, Record(p.cursor, e), p1, t, r.alive[t].proc.live);
    FeedOne(p, e);
  }

  lemma HeldNext(r: Rec, p: Rep, p1: Rep, t: Tid)
    requires t in r.alive && r.alive[t].held && r.early != Some(t) && Linked(r, p.procs, p.threads, p1.tidmap)
    ensures var live := r.alive[t].proc.live;
            && live in p.procs && SkipExecs(p.procs[live].rest) != []
            && SkipExecs(p.procs[live].rest)[0] == Raise(SIGSTOP)
  {
    assert t in Bindings(r);
    assert Agrees(r, p.procs, p.threads, t);
  }

  lemma ConsumeHeld(p: Rep, r: Record, p1: Rep, t: Tid, live: Pid)
    requires Attend(p, r) == Ok((p1, t, live)) && live in p1.procs
    requires SkipExecs(p1.procs[live].rest) != [] && SkipExecs(p1.procs[live].rest)[0] == Raise(SIGSTOP)
    requires var body := r.event.body;
             !body.Checkpoint? && !body.SchedSwitch? && !body.OtherKind? && body != Delivery(SIGSTOP)
    ensures Consume(p, r) == Err(ScheduleDiverged(r.seqNo))
  {
    hide Attend, SkipExecs;
  }

  lemma SimPreempt(r: Rec, p: Rep, t: Tid)
    requires Sim(r, p) && r.sched.running == Some(t) && Enabled(r, Preempt)
    ensures Sim(Report(r, Preempt), p)
  {
    hide Inv, Handle, Linked, SkipExecs;
    InvPreempt(r, t);
    RunningBound(r, t);
    RunningUnqueued(r, t);
    SignalShape(r.sched, t, SIGSTOP);
    SimSilent(r, Report(r, Preempt), p);
  }

  lemma RunningUnqueued(r: Rec, t: Tid)
    requires Inv(r) && (r.sched.running == Some(t) || t !in r.sched.threads)
    ensures t !in r.sched.ready
  {
    Unqueued(r, t);
  }

  lemma SimFirstStop(r: Rec, p: Rep, t: Tid, sig: Signal)
    requires Sim(r, p) && Enabled(r, FirstStop(t, sig))
    ensures Sim(Report(r, FirstStop(t, sig)), p)
  {
    hide Inv, Handle, Linked, SkipExecs;
    var n := Report(r, FirstStop(t, sig));
    InvFirstStop(r, t, sig);
    RunningUnqueued(r, t);
    FirstStopShape(r.sched, t, sig);
    assert Bindings(n) == Bindings(r);
    SimSilent(r, n, p);
  }

  /** A birth: thread `t` moved on to `tr` and `child` has joined. */
  ghost predicate Birth(r: Rec, n: Rec, t: Tid, tr: Tracee, child: Proc) {
    && t in r.alive && r.early != Some(t) && n.early.None?
    && tr.proc == r.alive[t].proc && n.sched.threads == r.sched.threads
    && child.rec != t && child.rec !in Bindings(r)
    && child.rec in n.alive && n.alive[child.rec] == Newborn(child, n.alive[child.rec].born)
    && t in n.alive && n.alive[t] == tr && n.alive.Keys == Bindings(r).Keys + {child.rec}
    && (forall u :: u in Bindings(r) && u != t ==> n.alive[u] == r.alive[u])
  }

  lemma BirthAgrees(r: Rec, n: Rec, procs: map<Pid, LiveProc>, threads: map<Pid, ThreadRt>,
                    t: Tid, tr: Tracee, proc: LiveProc, rt: ThreadRt, child: Proc, u: Tid)
    requires Identities(r) && Birth(r, n, t, tr, child) && u in n.alive
    requires u in Bindings(r) ==> Agrees(r, procs, threads, u)
    requires child.live !in procs && tr.proc.live in procs
    requires Twins(n.sched, t, tr, proc, rt) && ReplayPending(n.sched, child.rec).None?
    ensures Agrees(n, procs[tr.proc.live := proc][child.live := LiveProc(child.stops, [], [])],
                   threads[tr.proc.live := rt][child.live := NewThreadRt], u)
  {
    hide SkipExecs, ReplayPending;
    if u == child.rec {
      assert Twins(n.sched, u, n.alive[u], LiveProc(child.stops, [], []), NewThreadRt);
    } else if u != t {
      var live := r.alive[u].proc.live;
      TwinsCarry(r.sched, n.sched, u, r.alive[u], procs[live], threads[live]);
    }
  }

  lemma BirthBindings(r: Rec, n: Rec, t: Tid, tr: Tracee, child: Proc)
    requires Birth(r, n, t, tr, child)
    ensures Bindings(n) == Bindings(r)[child.rec := child.live]
    ensures t in Bindings(r) && Bindings(r)[t] == tr.proc.live && child.rec !in Bindings(r)
    ensures forall u :: u in Bindings(n) ==> u in n.alive
  {
  }

  lemma BindFresh(tids: TidMap, rec: Tid, live: Pid)
    requires tids.Inverse() && rec !in tids.toLive && live !in tids.toRecorded
    ensures TidMap(tids.toLive[rec := live], tids.toRecorded[live := rec]).Inverse()
  {
    assert tids.Bind(rec, live).Ok?;
  }

  /** Process `child` joins: the twin of `t` moved on to `proc` and `rt`. */
  ghost predicate Joins(procs: map<Pid, LiveProc>, threads: map<Pid, ThreadRt>, tids: TidMap,
                        live: Pid, proc: LiveProc, rt: ThreadRt, child: Proc,
                        procs': map<Pid, LiveProc>, threads': map<Pid, ThreadRt>, tids': TidMap) {
    && procs' == procs[live := proc][child.live := LiveProc(child.stops, [], [])]
    && threads' == threads[live := rt][child.live := NewThreadRt]
    && tids' == TidMap(tids.toLive[child.rec := child.live], tids.toRecorded[child.live := child.rec])
  }

  lemma LinkedBirth(r: Rec, n: Rec, procs: map<Pid, LiveProc>, threads: map<Pid, ThreadRt>, tids: TidMap,
                    t: Tid, tr: Tracee, proc: LiveProc, rt: ThreadRt, child: Proc,
                    procs': map<Pid, LiveProc>, threads': map<Pid, ThreadRt>, tids': TidMap)
    requires Identities(r) && Linked(r, procs, threads, tids) && Birth(r, n, t, tr, child)
    requires child.live !in procs && Joins(procs, threads, tids, tr.proc.live, proc, rt, child, procs', threads', tids')
    requires Twins(n.sched, t, tr, proc, rt) && ReplayPending(n.sched, child.rec).None?
    ensures Linked(n, procs', threads', tids')
  {
    hide Twins, ReplayPending, Bindings, Agrees, Birth, Identities;
    BirthBindings(r, n, t, tr, child);
    assert tr.proc.live in procs;
    BindFresh(tids, child.rec, child.live);
    forall u | u in Bindings(n) ensures Agrees(n, procs', threads', u) {
      BirthAgrees(r, n, procs, threads, t, tr, proc, rt, child, u);
    }
  }

  lemma TwinsCarry(s: Sched, n: Sched, t: Tid, tr: Tracee, proc: LiveProc, rt: ThreadRt)
    requires Twins(s, t, tr, proc, rt) && n.threads == s.threads
    ensures Twins(n, t, tr, proc, rt)
  {
  }

  lemma SpawnReport(r: Rec, t: Tid)
    requires Stopping(r, t) && r.alive[t].rest[0].Spawn? && Enabled(r, Own)
    ensures var n, tr, stop := Report(r, Own), r.alive[t], r.alive[t].rest[0];
            var c := stop.child.rec;
            && n.sched == Handle(r.sched, StatusOf(t, stop)) && n.early.None?
            && n.directed == r.directed + [Some(tr.proc.live)]
            && c != t && c !in Bindings(r) && c in n.alive && t in n.alive
            && n.alive[c] == Newborn(stop.child, n.alive[c].born)
            && n.alive[t] == AfterStop(tr, r.sched.threads[t].pendingEnter)
            && n.alive.Keys == Bindings(r).Keys + {c}
            && (forall u :: u in Bindings(r) && u != t ==> n.alive[u] == r.alive[u])
            && (forall u :: u in Bindings(r) ==> r.alive[u].proc.live != stop.child.live)
            && (c in r.sched.threads ==> r.sched.threads[c] == NewThread)
  {
    hide Handle, ThreadOk, Placed, VforksOk;
  }

  lemma SimSpawn(r: Rec, p: Rep, t: Tid) returns (q: Rep)
    requires Sim(r, p) && Stopping(r, t) && r.alive[t].rest[0].Spawn? && Enabled(r, Own) && !r.alive[t].held
    ensures Feed(p, Recorded(r.sched, StatusOf(t, r.alive[t].rest[0]))) == Ok(q) && Sim(Report(r, Own), q)
  {
    hide Inv, Handle, Consume, Attend, Report, Linked, ThreadOk, SkipExecs, AtEntry, Enabled;
    var n, tr := Report(r, Own), r.alive[t];
    var stop, live := tr.rest[0], tr.proc.live;
    var e := Event(Some(t), ThreadSpawn(t, stop.child.rec));
    assert Recorded(r.sched, StatusOf(t, stop)) == [e];
    SpawnReport(r, t);
    InvSpawn(r, t);
    RunningBound(r, t);
    var p1 := AttendRunning(r, p, t, e);
    TwinNext(r, p, p1, t);
    FreshInReplay(r, p, p1, stop.child);
    q := ConsumeSpawn(p, Record(p.cursor, e), p1, t, live, stop, tr.rest[1..]);
    FeedOne(p, e);
    StoppingUnqueued(r, t);
    EventShape(r.sched, t, StatusOf(t, stop).event);
    InvIdentities(r);
    var moved := Moved(p1, live, tr.rest[1..], p.threads[live].resumeSignal);
    var rt := ThreadRt(p.threads[live].pending, None);
    SpawnTwins(r.sched, n.sched, t, tr, n.alive[t], p.procs[live], p.threads[live], moved, rt);
    hide Twins, Bindings, Feed, Advance;
    LinkedBirth(r, n, p.procs, p.threads, p1.tidmap, t, n.alive[t],
                moved, rt, stop.child, q.procs, q.threads, q.tidmap);
  }

  /** Past its spawn stop the parent still has its twin. */
  lemma SpawnTwins(s: Sched, n: Sched, t: Tid, tr: Tracee, after: Tracee, proc: LiveProc, rt: ThreadRt,
                   moved: LiveProc, rt': ThreadRt)
    requires Twins(s, t, tr, proc, rt) && n.threads == s.threads && !tr.held && tr.rest != [] && tr.rest[0].Spawn?
    requires after == tr.(rest := tr.rest[1..])
    requires moved == LiveProc(tr.rest[1..], proc.delivered + AsSeq(rt.resumeSignal), proc.injected)
    requires rt' == ThreadRt(rt.pending, None)
    ensures Twins(n, t, after, moved, rt')
  {
    hide SkipExecs;
    assert moved.delivered + [] == moved.delivered;
  }

  lemma InvIdentities(r: Rec)
    requires Inv(r)
    ensures Identities(r)
  {
  }

  lemma FreshInReplay(r: Rec, p: Rep, p1: Rep, child: Proc)
    requires Linked(r, p.procs, p.threads, p1.tidmap) && child.rec !in Bindings(r)
    requires forall u :: u in Bindings(r) ==> r.alive[u].proc.live != child.live
    ensures p1.tidmap.Inverse() && child.rec !in p1.tidmap.toLive
    ensures child.live !in p1.tidmap.toRecorded && child.live !in p.procs
  {
    hide Agrees;
  }

  lemma LinkedDeath(r: Rec, n: Rec, procs: map<Pid, LiveProc>, threads: map<Pid, ThreadRt>, tids: TidMap, t: Tid)
    requires Identities(r) && Linked(r, procs, threads, tids) && t in r.alive && r.early != Some(t)
    requires n.alive == r.alive - {t} && n.early == r.early && n.sched.threads == r.sched.threads - {t}
    ensures var live := r.alive[t].proc.live; Linked(n, procs - {live}, threads - {live}, tids.Unbind(t))
  {
    var live := r.alive[t].proc.live;
    DeathBindings(r, n, t);
    UnbindBound(tids, t);
    hide Bindings, Agrees, Identities;
    forall u | u in Bindings(n) ensures Agrees(n, procs - {live}, threads - {live}, u) {
      AgreesSurvives(r, n, procs, threads, t, u);
    }
  }

  lemma DeathBindings(r: Rec, n: Rec, t: Tid)
    requires t in r.alive && r.early != Some(t) && n.alive == r.alive - {t} && n.early == r.early
    ensures Bindings(n) == Bindings(r) - {t} && t in Bindings(r) && Bindings(r)[t] == r.alive[t].proc.live
    ensures forall u :: u in Bindings(n) ==> u in r.alive && u != t
  {
  }

  lemma UnbindBound(tids: TidMap, t: Tid)
    requires tids.Inverse() && t in tids.toLive
    ensures tids.Unbind(t).Inverse() && tids.Unbind(t).toLive == tids.toLive - {t}
    ensures tids.Unbind(t).toRecorded.Keys == tids.toRecorded.Keys - {tids.toLive[t]}
  {
  }

  lemma AgreesSurvives(r: Rec, n: Rec, procs: map<Pid, LiveProc>, threads: map<Pid, ThreadRt>, t: Tid, u: Tid)
    requires Identities(r) && Agrees(r, procs, threads, u) && t in r.alive && u != t
    requires n.alive == r.alive - {t} && n.sched.threads == r.sched.threads - {t}
    ensures Agrees(n, procs - {r.alive[t].proc.live}, threads - {r.alive[t].proc.live}, u)
  {
    hide Twins;
    var live := r.alive[u].proc.live;
    TwinsSurvive(r.sched, n.sched, u, r.alive[u], procs[live], threads[live], t);
  }

  lemma TwinsSurvive(s: Sched, n: Sched, u: Tid, tr: Tracee, proc: LiveProc, rt: ThreadRt, t: Tid)
    requires Twins(s, u, tr, proc, rt) && n.threads == s.threads - {t} && u != t
    ensures Twins(n, u, tr, proc, rt)
  {
  }

  lemma DeathReport(r: Rec, t: Tid)
    requires Stopping(r, t) && Enabled(r, Own) && IsDeath(r.alive[t].rest[0])
    ensures var n, status := Report(r, Own), StatusOf(t, r.alive[t].rest[0]);
            && n.sched == Handle(r.sched, status) && n.alive == r.alive - {t} && n.early == r.early
            && n.directed == r.directed
                 + (if Recorded(r.sched, status) != [] then [Some(r.alive[t].proc.live)] else [])
            && n.sched.threads == r.sched.threads - {t} && n.sched.leader == r.sched.leader
            && n.sched.lastScheduled == r.sched.lastScheduled
            && n.sched.log == r.sched.log + Recorded(r.sched, status)
            && (r.sched.threadsFollowed == 1 ==> n.sched.threads == map[])
  {
    hide Handle, Recorded, ThreadOk, Identities;
    ExitShape(r.sched, t, StatusOf(t, r.alive[t].rest[0]));
    assert r.alive[t := AfterStop(r.alive[t], r.sched.threads[t].pendingEnter)] - {t} == r.alive - {t};
    if r.sched.threadsFollowed == 1 {
      assert r.sched.threads - {t} == map[];
    }
  }

  /** Replay ended with the leader's exit record, having directed every record up to it. */
  ghost predicate Finished(r: Rec, p: Rep) {
    && p.finished.Some? && 1 <= p.cursor <= |r.sched.log| == |r.directed|
    && r.sched.log[p.cursor - 1] == Event(Some(r.sched.leader), ThreadExit(r.sched.leader))
    && p.stepped == r.directed[..p.cursor]
  }

  /** The recorder is done, and its last thread's exit was not logged. */
  ghost predicate Drained(r: Rec, p: Rep) {
    r.sched.threads == map[] && p.finished.None? && p.cursor == |r.sched.log| && p.stepped == r.directed
  }

  /** How replay ends with this choice: the leader dies while more than one thread
      has been seen, so that its exit is logged. */
  ghost function Ending(r: Rec, choice: Choice): Option<ExitOutcome>
    requires Enabled(r, choice)
  {
    if choice.Own? && r.sched.running == Some(r.sched.leader) && IsDeath(r.alive[r.sched.leader].rest[0])
       && r.sched.threadsFollowed > 1
    then Some(ExitOf(r.alive[r.sched.leader].rest[0])) else None
  }

  /** A thread that has reported a `SIGSTOP` of its own makes a record. */
  ghost predicate Disturbs(r: Rec, choice: Choice)
    requires Enabled(r, choice)
  {
    choice.Own? && r.alive[r.sched.running.value].held && Added(r, choice) != []
  }

  ghost predicate Matched(r: Rec, p: Rep) {
    Sim(r, p) || Finished(r, p) || Drained(r, p)
  }

  lemma SimDeath(r: Rec, p: Rep, t: Tid) returns (q: Rep)
    requires Sim(r, p) && Stopping(r, t) && Enabled(r, Own) && IsDeath(r.alive[t].rest[0])
    requires r.alive[t].held ==> r.sched.threadsFollowed == 1
    ensures Feed(p, Recorded(r.sched, StatusOf(t, r.alive[t].rest[0]))) == Ok(q) && Matched(Report(r, Own), q)
    ensures q.finished == Ending(r, Own)
  {
    hide Inv, Handle, Consume, Attend, Report, Linked, ThreadOk, SkipExecs, AtEntry, Enabled;
    var n, tr := Report(r, Own), r.alive[t];
    var stop, live := tr.rest[0], tr.proc.live;
    DeathReport(r, t);
    RunningBound(r, t);
    FollowsOne(r);
    if r.sched.threadsFollowed == 1 {
      q := p;
    } else {
      var e := Event(Some(t), ThreadExit(t));
      assert Recorded(r.sched, StatusOf(t, stop)) == [e];
      var p1 := AttendRunning(r, p, t, e);
      TwinNext(r, p, p1, t);
      q := ConsumeDeath(p, Record(p.cursor, e), p1, t, live, stop, tr.rest[1..]);
      FeedOne(p, e);
      InvIdentities(r);
      if live == p.leader {
        SameThread(r, t, r.sched.leader);
        FinishedNow(r, n, q, t);
      } else {
        assert t != r.sched.leader;
        InvExit(r, t);
        LinkedDeath(r, n, p.procs, p.threads, p1.tidmap, t);
      }
    }
  }

  lemma FinishedNow(r: Rec, n: Rec, q: Rep, t: Tid)
    requires q.finished.Some? && t == r.sched.leader == n.sched.leader && |r.sched.log| == |r.directed|
    requires n.sched.log == r.sched.log + [Event(Some(t), ThreadExit(t))]
    requires |n.directed| == |n.sched.log| && q.cursor == |n.sched.log| && q.stepped == n.directed
    ensures Finished(n, q)
  {
    assert n.directed[..q.cursor] == n.directed;
  }

  lemma FollowsOne(r: Rec)
    requires Inv(r)
    ensures r.sched.threadsFollowed >= 1 && |r.directed| == |r.sched.log|
  {
  }

  lemma SameThread(r: Rec, t: Tid, u: Tid)
    requires Identities(r) && t in r.alive && u in r.alive && r.alive[t].proc.live == r.alive[u].proc.live
    ensures t == u
  {
  }

  lemma ResumeShape(r: Rec)
    requires Inv(r)
    ensures var n := Resume(r);
            && n.sched.log == r.sched.log + Switched(r.sched) && n.sched.leader == r.sched.leader
            && n.early == r.early && n.alive.Keys == r.alive.Keys && n.sched.threads.Keys == r.sched.threads.Keys
            && n.directed == r.directed + (if Switched(r.sched) != [] then [None] else [])
            && (forall t :: t in r.alive ==>
                  && n.alive[t] == r.alive[t].(delivered := n.alive[t].delivered)
                  && ReplayPending(n.sched, t) == ReplayPending(r.sched, t))
            && (Switched(r.sched) == [] ==> n.sched.lastScheduled == r.sched.lastScheduled)
            && (Switched(r.sched) != [] ==>
                  && n.sched.lastScheduled == Some(Switched(r.sched)[0].body.next)
                  && n.sched.lastScheduled.value in r.alive && r.early.None?)
  {
    hide ThreadOk, VforksOk, Suspended, NoDuplicates;
    if r.sched.running.None? && r.sched.ready != [] {
      assert r.sched.ready[0] in r.sched.ready;
    }
  }

  /** Handing the CPU on costs replay at most one switch record. */
  lemma SimResume(r: Rec, p: Rep) returns (q: Rep)
    requires Sim(r, p)
    ensures Feed(p, Switched(r.sched)) == Ok(q) && Sim(Resume(r), q)
  {
    hide Inv, Resume, SkipExecs, Linked, ReplayPending;
    var n := Resume(r);
    InvResume(r);
    ResumeShape(r);
    assert Bindings(n) == Bindings(r);
    if Switched(r.sched) == [] {
      q := p;
      SimSilent(r, n, p);
    } else {
      var next := n.sched.lastScheduled.value;
      assert next in Bindings(r);
      var e := Event(Some(next), SchedSwitch(next));
      FeedOne(p, e);
      q := OnSchedSwitch(p, Record(p.cursor, e), next);
      assert r.sched.log != [] by { EntryIsLeader(r, p, next); }
      LinkedCarry(r, n, p.procs, p.threads, p.tidmap);
    }
  }

  lemma EntryIsLeader(r: Rec, p: Rep, next: Tid)
    requires Sim(r, p) && next in Bindings(r) && r.sched.lastScheduled != Some(next)
    ensures r.sched.log != []
  {
    hide Inv, Agrees;
  }

  lemma LinkedCarry(r: Rec, n: Rec, procs: map<Pid, LiveProc>, threads: map<Pid, ThreadRt>, tids: TidMap)
    requires Linked(r, procs, threads, tids) && Bindings(n) == Bindings(r)
    requires forall t :: t in r.alive ==>
        && t in n.alive && n.alive[t] == r.alive[t].(delivered := n.alive[t].delivered)
        && ReplayPending(n.sched, t) == ReplayPending(r.sched, t)
    ensures Linked(n, procs, threads, tids)
  {
    hide SkipExecs, ReplayPending;
    forall t | t in Bindings(n) ensures Agrees(n, procs, threads, t) {
      assert Agrees(r, procs, threads, t);
    }
  }

  // ---- Whole runs ---------------------------------------------------------------------

  ghost function Added(r: Rec, choice: Choice): seq<Event>
    requires Enabled(r, choice)
  {
    if choice.Own? then
      var t := r.sched.running.value;
      Recorded(r.sched, StatusOf(t, r.alive[t].rest[0]))
    else []
  }

  lemma ReportLogs(r: Rec, choice: Choice)
    requires Inv(r) && Enabled(r, choice)
    ensures var n := Report(r, choice);
            && n.sched.log == r.sched.log + Added(r, choice) && n.sched.leader == r.sched.leader
            && r.directed <= n.directed
  {
    hide Handle, Recorded;
    match choice
    case Own =>
      var t := r.sched.running.value;
      HandleLogs(r.sched, StatusOf(t, r.alive[t].rest[0]));
      HandleLeader(r.sched, StatusOf(t, r.alive[t].rest[0]));
    case Preempt =>
      var t := r.sched.running.value;
      RunningBound(r, t);
      RunningUnqueued(r, t);
      SignalShape(r.sched, t, SIGSTOP);
      NoRecord(r.sched, t, SIGSTOP);
    case FirstStop(t, sig) =>
      RunningUnqueued(r, t);
      FirstStopShape(r.sched, t, sig);
  }

  lemma HandleLeader(s: Sched, status: Status)
    ensures Handle(s, status).leader == s.leader
  {
  }

  lemma NoRecord(s: Sched, t: Tid, sig: Signal)
    requires sig == SIGSTOP
    ensures Recorded(s, Stopped(t, sig)) == []
  {
  }

  lemma SimReport(r: Rec, p: Rep, choice: Choice) returns (q: Rep)
    requires Sim(r, p) && Enabled(r, choice) && !Disturbs(r, choice)
    ensures Feed(p, Added(r, choice)) == Ok(q) && Matched(Report(r, choice), q) && q.finished == Ending(r, choice)
  {
    hide Inv, Recorded, Report, Finished, Drained, ThreadOk, AtEntry, Linked;
    match choice
    case Preempt => q := p; SimPreempt(r, p, r.sched.running.value);
    case FirstStop(t, sig) => q := p; SimFirstStop(r, p, t, sig);
    case Own =>
      var t := r.sched.running.value;
      RunningBound(r, t);
      InvThread(r, t);
      FollowsOne(r);
      var stop := r.alive[t].rest[0];
      RecordedAt(r.sched, t, stop);
      match stop {
        case Syscall(_, _) =>
          if r.sched.threads[t].pendingEnter.None? { q := SimEnter(r, p, t); } else { q := SimLeave(r, p, t); }
        case Spawn(_, _) => q := SimSpawn(r, p, t);
        case Exec => q := p; SimExec(r, p, t);
        case Raise(sig) => if sig == SIGSTOP { q := p; SimHold(r, p, t); } else { q := SimRaise(r, p, t); }
        case Exit(_) => q := SimDeath(r, p, t);
        case Killed(_) => q := SimDeath(r, p, t);
      }
  }

  /** Which stops of a tracked thread leave a record. */
  lemma RecordedAt(s: Sched, t: Tid, stop: Stop)
    requires t in s.threads
    ensures Recorded(s, StatusOf(t, stop)) != []
       <==> stop.Syscall? || stop.Spawn? || (stop.Raise? && stop.sig != SIGSTOP)
            || (IsDeath(stop) && s.threadsFollowed > 1)
  {
  }

  lemma InvThread(r: Rec, t: Tid)
    requires Inv(r) && t in r.alive
    ensures ThreadOk(r.sched, t, r.alive[t])
  {
  }

  lemma FinishedStays(r: Rec, n: Rec, p: Rep)
    requires Finished(r, p) && n.sched.leader == r.sched.leader
    requires r.sched.log <= n.sched.log && r.directed <= n.directed && |n.directed| == |n.sched.log|
    ensures Finished(n, p)
  {
    assert n.directed[..p.cursor] == r.directed[..p.cursor];
  }

  /** One loop turn of the recorder against the records it adds. */
  lemma MatchedTurn(r: Rec, p: Rep, choice: Choice) returns (q: Rep)
    requires Inv(r) && Matched(r, p) && r.sched.threads != map[] && Enabled(Resume(r), choice)
    requires p.finished.Some? || !Disturbs(Resume(r), choice)
    ensures var n := Report(Resume(r), choice);
            && n.sched.log == r.sched.log + (Switched(r.sched) + Added(Resume(r), choice))
            && Inv(n) && Matched(n, q)
            && Feed(p, Switched(r.sched) + Added(Resume(r), choice)) == Ok(q)
    ensures q.finished == if p.finished.Some? then p.finished else Ending(Resume(r), choice)
  {
    hide Inv, Resume, Report, Enabled, Switched, Sim, Consume, Added, Ending, Disturbs;
    var m, n := Resume(r), Report(Resume(r), choice);
    TurnShape(r, choice);
    var switch, added := Switched(r.sched), Added(m, choice);
    if Finished(r, p) {
      q := p;
      FinishedStays(r, n, p);
    } else {
      SimUnfinished(r, p);
      var p1 := SimResume(r, p);
      q := SimReport(m, p1, choice);
      FeedAppend(p, switch, added);
    }
  }

  lemma SimUnfinished(r: Rec, p: Rep)
    requires Sim(r, p)
    ensures p.finished.None?
  {
  }

  lemma TurnShape(r: Rec, choice: Choice)
    requires Inv(r) && Enabled(Resume(r), choice)
    ensures var n := Report(Resume(r), choice);
            && n.sched.log == r.sched.log + (Switched(r.sched) + Added(Resume(r), choice))
            && Inv(n) && n.sched.leader == r.sched.leader && r.directed <= n.directed && |n.directed| == |n.sched.log|
  {
    hide Inv, Resume, Report, Enabled, Switched, Added;
    var m, n := Resume(r), Report(Resume(r), choice);
    InvResume(r);
    InvReport(m, choice);
    ResumeShape(r);
    ReportLogs(m, choice);
    FollowsOne(n);
    assert r.sched.log + Switched(r.sched) + Added(m, choice) == r.sched.log + (Switched(r.sched) + Added(m, choice));
  }

  /** A turn in which a held thread makes a record is where replay diverges, having
      consumed and directed everything before that record as recorded. */
  lemma DisturbedTurn(r: Rec, p: Rep, choice: Choice) returns (p1: Rep)
    requires Inv(r) && Matched(r, p) && p.finished.None? && r.sched.threads != map[]
    requires Enabled(Resume(r), choice) && Disturbs(Resume(r), choice)
    ensures Feed(p, Switched(r.sched) + Added(Resume(r), choice)) == Err(ScheduleDiverged(p1.cursor))
    ensures Feed(p, Switched(r.sched)) == Ok(p1) && p1.finished.None?
    ensures p1.cursor == |Resume(r).sched.log| && p1.stepped == Resume(r).directed
    ensures Resume(r).sched.log == r.sched.log + Switched(r.sched)
  {
    hide Inv, Resume, Report, Switched, Sim, Consume, Recorded;
    var m := Resume(r);
    p1 := SimResume(r, p);
    SimParts(m, p1);
    ResumeShape(r);
    RunningBound(m, m.sched.running.value);
    InvThread(m, m.sched.running.value);
    SimHeld(m, p1, m.sched.running.value);
    FeedAppend(p, Switched(r.sched), Added(m, choice));
  }

  lemma SimParts(r: Rec, p: Rep)
    requires Sim(r, p)
    ensures Inv(r) && p.finished.None? && p.cursor == |r.sched.log| && p.stepped == r.directed
  {
  }

  /** The index of the first record, up to the leader's logged exit, that a thread makes
      after it has reported a `SIGSTOP` of its own. */
  ghost function FirstDisturbance(r: Rec, choices: seq<Choice>): Option<nat>
    requires Admissible(r, choices)
    decreases |choices|
  {
    if choices == [] then None
    else if Disturbs(Resume(r), choices[0]) then Some(|Resume(r).sched.log|)
    else if Ending(Resume(r), choices[0]).Some? then None
    else FirstDisturbance(Report(Resume(r), choices[0]), choices[1..])
  }

  /** Up to the leader's logged exit, no thread reports a `SIGSTOP` of its own and
      then makes a further record. */
  ghost predicate Undisturbed(r: Rec, choices: seq<Choice>)
    requires Admissible(r, choices)
  {
    FirstDisturbance(r, choices).None?
  }

  /** The leader's exit, if the run logs it: it is logged when a child has been seen by then. */
  ghost function LoggedExit(r: Rec, choices: seq<Choice>): Option<ExitOutcome>
    requires Admissible(r, choices)
    decreases |choices|
  {
    if choices == [] then None
    else
      var ending := Ending(Resume(r), choices[0]);
      if ending.Some? then ending else LoggedExit(Report(Resume(r), choices[0]), choices[1..])
  }

  lemma {:induction false} LogGrows(r: Rec, choices: seq<Choice>)
    requires Inv(r) && Admissible(r, choices)
    ensures var n := RecordAll(r, choices);
            && r.sched.log <= n.sched.log && n.sched.leader == r.sched.leader && Inv(n)
            && r.directed <= n.directed && |n.directed| == |n.sched.log|
    decreases |choices|
  {
    hide Inv, Resume, Report, Enabled, Switched, Added;
    FollowsOne(r);
    if choices != [] {
      TurnShape(r, choices[0]);
      LogGrows(Report(Resume(r), choices[0]), choices[1..]);
    }
  }

  /** Replay of the records after the first `from` fails at record `i`: it stands at `q`
      before it, each earlier record having resumed whom the recording did. */
  ghost predicate BreaksAt(n: Rec, p: Rep, from: nat, i: nat, q: Rep) {
    && from <= i <= |n.sched.log| == |n.directed|
    && Feed(p, n.sched.log[from..]) == Err(ScheduleDiverged(i)) && Feed(p, n.sched.log[from..i]) == Ok(q)
    && q.cursor == i && q.stepped == n.directed[..i] && q.finished.None?
  }

  /** A run against the records it adds: replay takes them all, or fails at the
      first record of a held thread. */
  lemma {:induction false} MatchedRun(r: Rec, p: Rep, choices: seq<Choice>) returns (q: Rep)
    requires Inv(r) && Matched(r, p) && Admissible(r, choices)
    ensures r.sched.log <= RecordAll(r, choices).sched.log
    ensures var n := RecordAll(r, choices);
            var fed := Feed(p, n.sched.log[|r.sched.log|..]);
            && (fed.Ok? <==> p.finished.Some? || Undisturbed(r, choices))
            && (fed.Ok? ==> fed == Ok(q) && Matched(n, q)
                            && q.finished == if p.finished.Some? then p.finished else LoggedExit(r, choices))
            && (fed.Err? ==> BreaksAt(n, p, |r.sched.log|, FirstDisturbance(r, choices).value, q))
    decreases |choices|
  {
    hide Inv, Resume, Report, Enabled, Switched, Matched, Consume, Added, Ending, Disturbs, BreaksAt;
    var n := RecordAll(r, choices);
    LogGrows(r, choices);
    q := p;
    if choices == [] {
      assert n.sched.log[|r.sched.log|..] == [];
    } else {
      var m := Report(Resume(r), choices[0]);
      TurnShape(r, choices[0]);
      LogGrows(m, choices[1..]);
      var turn, rest := Switched(r.sched) + Added(Resume(r), choices[0]), n.sched.log[|m.sched.log|..];
      assert n.sched.log[|r.sched.log|..] == turn + rest;
      FeedAppend(p, turn, rest);
      if p.finished.None? && Disturbs(Resume(r), choices[0]) {
        q := DisturbedTurn(r, p, choices[0]);
        TurnDirects(r, choices[0]);
        BrokenHere(r, m, n, p, Switched(r.sched), turn, q);
      } else {
        var p1 := MatchedTurn(r, p, choices[0]);
        q := MatchedRun(m, p1, choices[1..]);
        if Feed(p1, rest).Err? {
          BrokenLater(n, p, p1, r.sched.log, m.sched.log, turn, FirstDisturbance(m, choices[1..]).value, q);
        }
      }
    }
  }

  lemma TurnDirects(r: Rec, choice: Choice)
    requires Inv(r) && Enabled(Resume(r), choice)
    ensures Resume(r).directed <= Report(Resume(r), choice).directed
    ensures |Resume(r).sched.log| == |Resume(r).directed|
  {
    hide Inv, Resume, Report, Added;
    InvResume(r);
    ReportLogs(Resume(r), choice);
    FollowsOne(Resume(r));
  }

  lemma BrokenHere(r: Rec, m: Rec, n: Rec, p: Rep, switch: seq<Event>, turn: seq<Event>, q: Rep)
    requires m.sched.log == r.sched.log + turn && m.sched.log <= n.sched.log && switch <= turn
    requires Feed(p, turn) == Err(ScheduleDiverged(q.cursor)) && Feed(p, switch) == Ok(q) && q.finished.None?
    requires Feed(p, n.sched.log[|r.sched.log|..]) == Err(ScheduleDiverged(q.cursor))
    requires q.cursor == |r.sched.log| + |switch| == |q.stepped| && q.stepped <= m.directed <= n.directed
    requires |n.directed| == |n.sched.log|
    ensures BreaksAt(n, p, |r.sched.log|, q.cursor, q)
  {
    hide Feed;
    assert n.sched.log[|r.sched.log|..q.cursor] == switch;
    assert n.directed[..q.cursor] == q.stepped;
  }

  lemma BrokenLater(n: Rec, p: Rep, p1: Rep, log: seq<Event>, log1: seq<Event>, turn: seq<Event>, i: nat, q: Rep)
    requires log1 == log + turn && log1 <= n.sched.log && Feed(p, turn) == Ok(p1)
    requires BreaksAt(n, p1, |log1|, i, q)
    ensures BreaksAt(n, p, |log|, i, q)
  {
    hide Feed;
    assert n.sched.log[|log|..] == turn + n.sched.log[|log1|..];
    assert n.sched.log[|log|..i] == turn + n.sched.log[|log1|..i];
    FeedAppend(p, turn, n.sched.log[|log1|..]);
    FeedAppend(p, turn, n.sched.log[|log1|..i]);
  }

  function Records(log: seq<Event>): (records: seq<Record>)
    ensures |records| == |log|
  {
    seq(|log|, i requires 0 <= i < |log| => Record(i, log[i]))
  }

  /** Driving over a log stops where asked, ends with the leader's exit, fails
      where feeding it fails, or runs out of records; it reports nothing else. */
  lemma {:induction false} DriveFollowsFeed(log: seq<Event>, p: Rep, stopAt: Option<nat>)
    requires p.cursor <= |log|
    ensures var d, fed := Drive(Records(log), p, stopAt), Feed(p, log[p.cursor..]);
            && (d.Err? ==> d.error == TraceExhausted || fed == Err(d.error))
            && (stopAt.None? ==>
                  d == match fed
                       case Err(e) => Err(e)
                       case Ok(q) => if q.finished.Some? then Ok((q, q.finished.value)) else Err(TraceExhausted))
    decreases |log| - p.cursor
  {
    hide Consume;
    if p.finished.None? && p.cursor < |log| {
      var e := log[p.cursor];
      assert log[p.cursor..][0] == e && log[p.cursor..][1..] == log[p.cursor + 1..];
      assert Records(log)[p.cursor] == Record(p.cursor, e);
      match Consume(p, Record(p.cursor, e))
      case Err(_) =>
      case Ok(n) =>
        assert n.cursor == p.cursor + 1;
        DriveFollowsFeed(log, n, stopAt);
    }
  }

  ghost predicate LogsExitOf(log: seq<Event>, t: Tid) {
    Event(Some(t), ThreadExit(t)) in log
  }

  /** The record/replay theorem. Whatever a recording under the kernel hypotheses
      logs, replaying that log against live threads with the same stops meets no
      divergence and no unexpected record if and only if no thread reports a
      `SIGSTOP` of its own and then makes a further record. Replay then consumes the log in
      order, each record resuming exactly the live twin of the thread that made it. It
      finishes exactly when the leader's exit is in the log, with the outcome
      the leader had; otherwise it ends with the log. If some thread does so, replay
      fails at its first record after the `SIGSTOP`, with everything before it
      consumed and directed as recorded. */
  lemma RecordReplay(leader: Proc, choices: seq<Choice>) returns (q: Rep)
    requires Grammar(leader.stops, false) && Admissible(Start(leader), choices)
    ensures var r := RecordAll(Start(leader), choices);
            var log := r.sched.log;
            var fed := Feed(Launch(leader), log);
            && (fed.Ok? <==> Undisturbed(Start(leader), choices))
            && (fed.Err? ==>
                  && BreaksAt(r, Launch(leader), 0, FirstDisturbance(Start(leader), choices).value, q)
                  && Drive(Records(log), Launch(leader), None) == Err(fed.error))
            && (fed.Ok? ==>
                  && fed == Ok(q)
                  && (forall stopAt :: var d := Drive(Records(log), Launch(leader), stopAt);
                        d.Err? ==> d.error == TraceExhausted)
                  && Drive(Records(log), Launch(leader), None)
                     == (if q.finished.Some? then Ok((q, q.finished.value)) else Err(TraceExhausted))
                  && q.cursor <= |log| == |r.directed| && q.stepped == r.directed[..q.cursor]
                  && q.finished == LoggedExit(Start(leader), choices)
                  && (q.finished.Some? ==>
                        q.cursor > 0 && log[q.cursor - 1] == Event(Some(leader.rec), ThreadExit(leader.rec)))
                  && (q.finished.None? ==> q.cursor == |log|))
  {
    hide Admissible, Consume, Grammar, LoggedExit, FirstDisturbance, Drive, Feed;
    var r0, p0 := Start(leader), Launch(leader);
    InvStart(leader);
    SimStart(leader);
    LogGrows(r0, choices);
    var r := RecordAll(r0, choices);
    hide Inv, RecordAll, Sim;
    q := MatchedRun(r0, p0, choices);
    assert r.sched.log[|r0.sched.log|..] == r.sched.log;
    DrivenByFeed(r.sched.log, p0);
    if Feed(p0, r.sched.log).Ok? {
      MatchedEnd(r, q);
    }
  }

  lemma MatchedEnd(r: Rec, q: Rep)
    requires Matched(r, q) && |r.directed| == |r.sched.log|
    ensures q.cursor <= |r.sched.log| && q.stepped == r.directed[..q.cursor]
    ensures q.finished.Some? ==>
              q.cursor > 0 && r.sched.log[q.cursor - 1] == Event(Some(r.sched.leader), ThreadExit(r.sched.leader))
    ensures q.finished.None? ==> q.cursor == |r.sched.log|
  {
    hide Inv, Linked, AtEntry;
    assert r.directed[..|r.directed|] == r.directed;
  }

  lemma DrivenByFeed(log: seq<Event>, p: Rep)
    requires p.cursor == 0
    ensures forall stopAt :: var d := Drive(Records(log), p, stopAt);
              d.Err? ==> d.error == TraceExhausted || Feed(p, log) == Err(d.error)
    ensures Drive(Records(log), p, None)
         == match Feed(p, log)
            case Err(e) => Err(e)
            case Ok(q) => if q.finished.Some? then Ok((q, q.finished.value)) else Err(TraceExhausted)
  {
    hide Drive, Feed;
    assert log[0..] == log;
    forall stopAt
      ensures var d := Drive(Records(log), p, stopAt);
              d.Err? ==> d.error == TraceExhausted || Feed(p, log) == Err(d.error)
    {
      DriveFollowsFeed(log, p, stopAt);
    }
    DriveFollowsFeed(log, p, None);
  }
}
