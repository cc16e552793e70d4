/** What each record demands of the process it directs, and what consuming it does. */
module Conformance {
  import opened Common
  import opened Injection
  import opened Scheduling
  import opened Recording
  import opened TidMapping
  import opened MtReplay

  // ---- Which process, and its next stop ---------------------------------------------------

  /** After any execs, the script goes on with `stop` and then `rest`. */
  ghost predicate NextIs(script: seq<Stop>, stop: Stop, rest: seq<Stop>) {
    exists k :: NextAt(script, stop, rest, k)
  }

  ghost predicate NextAt(script: seq<Stop>, stop: Stop, rest: seq<Stop>, k: nat) {
    && k < |script| && script[k] == stop && !stop.Exec? && rest == script[k + 1..]
    && forall i :: 0 <= i < k ==> script[i].Exec?
  }

  lemma {:induction false} NextIsSkipped(script: seq<Stop>, stop: Stop, rest: seq<Stop>)
    ensures NextIs(script, stop, rest)
       <==> SkipExecs(script) != [] && SkipExecs(script)[0] == stop && SkipExecs(script)[1..] == rest
    decreases |script|
  {
    if script != [] && script[0].Exec? {
      NextIsSkipped(script[1..], stop, rest);
      if NextIs(script, stop, rest) {
        var k: nat :| NextAt(script, stop, rest, k);
        assert k > 0 && NextAt(script[1..], stop, rest, k - 1);
      }
      if NextIs(script[1..], stop, rest) {
        var k: nat :| NextAt(script[1..], stop, rest, k);
        assert forall i :: 0 < i <= k + 1 ==> script[i] == script[1..][i - 1];
        assert NextAt(script, stop, rest, k + 1);
      }
    } else if script != [] {
      if NextIs(script, stop, rest) {
        var k :| NextAt(script, stop, rest, k);
        assert k == 0;
      }
      if script[0] == stop && script[1..] == rest {
        assert NextAt(script, stop, rest, 0);
      }
    }
  }

  /** The record's tid is the one expected, and the table, or for the first record of
      all the leader, gives the process. */
  ghost predicate Names(p: Rep, r: Record, t: Tid, live: Pid) {
    && r.event.tid == Some(t) && (p.expectedTid.None? || p.expectedTid == Some(t))
    && (if t in p.tidmap.toLive then live == p.tidmap.toLive[t]
        else
          && p.tidmap.toLive == map[] && live == p.leader
          && (live in p.tidmap.toRecorded ==> p.tidmap.toRecorded[live] == t))
  }

  /** The table once the record's tid is resolved. */
  ghost function Table(p: Rep, t: Tid): TidMap {
    if t in p.tidmap.toLive then p.tidmap
    else TidMap(p.tidmap.toLive[t := p.leader], p.tidmap.toRecorded[p.leader := t])
  }

  lemma AttendNames(p: Rep, r: Record)
    ensures forall t: nat, live: nat :: Names(p, r, t, live) ==>
              Attend(p, r) == Ok((p.(expectedTid := Some(t), tidmap := Table(p, t)), t, live))
    ensures Attend(p, r).Ok? ==> Names(p, r, Attend(p, r).value.1, Attend(p, r).value.2)
    ensures Attend(p, r).Err? ==> Attend(p, r).error == ScheduleDiverged(r.seqNo)
  {
  }

  // ---- What fits -----------------------------------------------------------------------------

  predicate DirectsThread(body: Body) {
    !body.Checkpoint? && !body.SchedSwitch? && !body.OtherKind?
  }

  /** The stop a record tells of: a syscall with that very number, that very signal, a
      spawn, a death. */
  ghost predicate Fits(body: Body, stop: Stop) {
    match body
    case SyscallEnter(nr, _) => stop.Syscall? && stop.regs.nr == nr
    case SyscallExit(_, _, _) => stop.Syscall?
    case ThreadSpawn(_, _) => stop.Spawn?
    case ThreadExit(_) => stop.Exit? || stop.Killed?
    case Delivery(signum) => stop == Raise(signum)
    case _ => false
  }

  /** The replayer's own books allow it: an exit has an entry pending, a birth binds free ids. */
  ghost predicate Ready(p: Rep, body: Body, t: Tid, live: Pid, stop: Stop)
    requires Fits(body, stop)
  {
    match body
    case SyscallExit(_, _, _) => live in p.threads && p.threads[live].pending.Some?
    case ThreadSpawn(_, child) =>
      var table := Table(p, t);
      && (child in table.toLive ==> table.toLive[child] == stop.child.live)
      && (stop.child.live in table.toRecorded ==> table.toRecorded[stop.child.live] == child)
    case _ => true
  }

  /** The process after its stop: moved on, handed `signals`, fed `results`. */
  ghost predicate MovedOn(before: LiveProc, after: LiveProc, rest: seq<Stop>, signals: seq<Signal>,
                          results: seq<Injected>) {
    after == LiveProc(rest, before.delivered + signals, before.injected + results)
  }

  /** What a suppressed syscall is fed at its exit. */
  ghost function Fed(pending: PendingSys, body: Body): seq<Injected>
    requires body.SyscallExit?
  {
    if pending.suppressed && pending.injectAddr.Some?
    then [Injected(pending.injectAddr.value, body.data, body.ret)] else []
  }

  /** Everything consuming a fitting record changes among the processes. */
  ghost predicate ProcsAfter(p: Rep, n: Rep, body: Body, live: Pid, stop: Stop, rest: seq<Stop>)
    requires live in p.procs && Fits(body, stop)
  {
    var handed := if body.SyscallExit? || live !in p.threads then [] else AsSeq(p.threads[live].resumeSignal);
    var fed := if body.SyscallExit? && live in p.threads && p.threads[live].pending.Some?
               then Fed(p.threads[live].pending.value, body) else [];
    match stop
    case Exit(_) => n.procs == p.procs - {live}
    case Killed(_) => n.procs == p.procs - {live}
    case Spawn(child, _) =>
      && n.procs.Keys == p.procs.Keys + {child.live}
      && n.procs[child.live] == LiveProc(child.stops, [], [])
      && (child.live != live ==> MovedOn(p.procs[live], n.procs[live], rest, handed, []))
      && (forall u: nat :: u in p.procs && u != live && u != child.live ==> n.procs[u] == p.procs[u])
    case _ =>
      && n.procs.Keys == p.procs.Keys && MovedOn(p.procs[live], n.procs[live], rest, handed, fed)
      && (forall u: nat :: u in p.procs && u != live ==> n.procs[u] == p.procs[u])
  }

  /** And among the threads it tracks. An entry leaves the syscall pending, suppressed
      exactly if it is one of the five the recorder captures. */
  ghost predicate ThreadsAfter(p: Rep, n: Rep, body: Body, live: Pid, stop: Stop)
    requires Fits(body, stop)
  {
    match body
    case SyscallEnter(nr, _) =>
      && n.threads.Keys == p.threads.Keys
      && (live in p.threads ==>
            && n.threads[live].resumeSignal == None && n.threads[live].pending.Some?
            && n.threads[live].pending.value.suppressed == (nr in {0, 17, 45, 228, 318})
            && n.threads[live].pending.value.injectAddr == Destination(nr, stop.regs.args))
      && (forall u: nat :: u in p.threads && u != live ==> n.threads[u] == p.threads[u])
    case SyscallExit(_, _, _) =>
      && live in p.threads && n.threads == p.threads[live := p.threads[live].(pending := None)]
    case Delivery(signum) =>
      && n.threads.Keys == p.threads.Keys
      && (live in p.threads ==> n.threads[live] == ThreadRt(p.threads[live].pending, Some(signum)))
      && (forall u: nat :: u in p.threads && u != live ==> n.threads[u] == p.threads[u])
    case ThreadSpawn(_, _) =>
      && n.threads.Keys == p.threads.Keys + {stop.child.live} && n.threads[stop.child.live] == ThreadRt(None, None)
      && (live in p.threads && live != stop.child.live ==>
            n.threads[live] == ThreadRt(p.threads[live].pending, None))
      && (forall u: nat :: u in p.threads && u != live && u != stop.child.live ==> n.threads[u] == p.threads[u])
    case _ =>
      && n.threads.Keys == p.threads.Keys - {live}
      && (forall u: nat :: u in n.threads ==> n.threads[u] == p.threads[u])
  }

  /** And in the table, the schedule and the progress. */
  ghost predicate BooksAfter(p: Rep, n: Rep, r: Record, t: Tid, live: Pid, stop: Stop)
    requires Fits(r.event.body, stop)
  {
    && n.cursor == p.cursor + 1 && n.currentSeq == Some(r.seqNo) && n.expectedTid == Some(t)
    && n.leader == p.leader && n.stepped == p.stepped + [Some(live)]
    && n.finished == (if r.event.body.ThreadExit? && live == p.leader
                      then Some(if stop.Exit? then HasExited(stop.code) else HasSignaled(stop.sig)) else p.finished)
    && n.lastRegs == (if stop.Syscall? then Some(stop.regs) else p.lastRegs)
    && (match r.event.body
        case ThreadSpawn(_, child) =>
          n.tidmap == TidMap(Table(p, t).toLive[child := stop.child.live],
                             Table(p, t).toRecorded[stop.child.live := child])
        case ThreadExit(_) => n.tidmap == Table(p, t).Unbind(t)
        case _ => n.tidmap == Table(p, t))
    && n.vforkSuspended == (if stop.Spawn? && stop.how == ByVfork then p.vforkSuspended[stop.child.live := live]
                            else if r.event.body.ThreadExit? then p.vforkSuspended - {live}
                            else p.vforkSuspended)
  }

  /** Everything consuming a fitting record does. */
  ghost predicate EffectOf(p: Rep, n: Rep, r: Record, t: Tid, live: Pid, stop: Stop, rest: seq<Stop>) {
    && live in p.procs && Fits(r.event.body, stop)
    && ProcsAfter(p, n, r.event.body, live, stop, rest)
    && ThreadsAfter(p, n, r.event.body, live, stop) && BooksAfter(p, n, r, t, live, stop)
  }

  /** Once its tid resolves, a record is consumed exactly when the directed process's next
      stop fits it; it is a divergence of syscall numbers exactly when that stop is a syscall
      with another number than an entry records, and of the schedule in every other case. */
  lemma ConsumesWhatFits(p: Rep, r: Record, t: Tid, live: Pid, stop: Stop, rest: seq<Stop>)
    requires DirectsThread(r.event.body) && Names(p, r, t, live)
    requires live in p.procs && NextIs(p.procs[live].rest, stop, rest)
    ensures Consume(p, r).Ok? <==> Fits(r.event.body, stop) && Ready(p, r.event.body, t, live, stop)
    ensures Consume(p, r) == Err(Diverged(r.seqNo))
       <==> r.event.body.SyscallEnter? && stop.Syscall? && stop.regs.nr != r.event.body.nr
    ensures Consume(p, r).Err? ==> Consume(p, r).error in {Diverged(r.seqNo), ScheduleDiverged(r.seqNo)}
    ensures Consume(p, r).Ok? ==>
              EffectOf(p, Consume(p, r).value, r, t, live, stop, rest)
  {
    AttendNames(p, r);
    NextIsSkipped(p.procs[live].rest, stop, rest);
    var p1 := p.(expectedTid := Some(t), tidmap := Table(p, t));
    hide Attend, SkipExecs, Names, NextIs, Table, EffectOf, Ready;
    hide OnSyscallEnter, OnSyscallExit, OnThreadSpawn, OnThreadExit, OnSignal;
    match r.event.body
    case SyscallEnter(nr, _) => EntersWhatFits(p, r, p1, t, live, stop, rest);
    case SyscallExit(_, ret, data) => ExitsWhatFits(p, r, p1, t, live, stop, rest);
    case ThreadSpawn(_, child) => SpawnsWhatFits(p, r, p1, t, live, stop, rest);
    case ThreadExit(_) => DiesAsFits(p, r, p1, t, live, stop, rest);
    case Delivery(signum) => DeliversWhatFits(p, r, p1, t, live, stop, rest);
  }

  /** The directed process is at `stop`, `p1` being the state with the tid resolved. */
  ghost predicate Directed(p: Rep, r: Record, p1: Rep, t: Tid, live: Pid, stop: Stop, rest: seq<Stop>) {
    && Attend(p, r) == Ok((p1, t, live)) && p1 == p.(expectedTid := Some(t), tidmap := Table(p, t))
    && live in p.procs && !stop.Exec? && SkipExecs(p.procs[live].rest) != []
    && SkipExecs(p.procs[live].rest)[0] == stop && SkipExecs(p.procs[live].rest)[1..] == rest
  }

  /** The state after an entry, as one update. */
  ghost predicate Entered(p: Rep, n: Rep, r: Record, t: Tid, live: Pid, stop: Stop, rest: seq<Stop>)
    requires live in p.procs && stop.Syscall?
  {
    var proc := p.procs[live];
    && n.procs == p.procs[live := LiveProc(rest, proc.delivered + HandedOn(p, live), proc.injected)]
    && n.threads == (if live in p.threads then
                       p.threads[live := ThreadRt(Some(Classify(stop.regs.nr, stop.regs.args)), None)]
                     else p.threads)
    && n.tidmap == Table(p, t) && n.vforkSuspended == p.vforkSuspended
    && n.cursor == p.cursor + 1 && n.currentSeq == Some(r.seqNo) && n.expectedTid == Some(t)
    && n.leader == p.leader && n.stepped == p.stepped + [Some(live)] && n.lastRegs == Some(stop.regs)
    && n.finished == p.finished
  }

  lemma EntryShape(p: Rep, r: Record, p1: Rep, t: Tid, live: Pid, stop: Stop, rest: seq<Stop>)
    requires r.event.body.SyscallEnter? && Directed(p, r, p1, t, live, stop, rest)
    ensures var nr := r.event.body.nr;
            && (Consume(p, r).Ok? <==> stop.Syscall? && stop.regs.nr == nr)
            && (Consume(p, r) == Err(Diverged(r.seqNo)) <==> stop.Syscall? && stop.regs.nr != nr)
            && (Consume(p, r).Err? ==> Consume(p, r).error in {Diverged(r.seqNo), ScheduleDiverged(r.seqNo)})
    ensures live in p.procs && (Consume(p, r).Ok? ==> Entered(p, Consume(p, r).value, r, t, live, stop, rest))
  {
    hide Attend, SkipExecs, Table, Classify;
  }

  lemma EntryEffect(p: Rep, n: Rep, r: Record, t: Tid, live: Pid, stop: Stop, rest: seq<Stop>)
    requires live in p.procs && r.event.body.SyscallEnter? && stop.Syscall? && stop.regs.nr == r.event.body.nr
    requires Entered(p, n, r, t, live, stop, rest)
    ensures EffectOf(p, n, r, t, live, stop, rest)
  {
    hide Table;
    assert p.procs[live].injected + [] == p.procs[live].injected;
  }

  lemma EntersWhatFits(p: Rep, r: Record, p1: Rep, t: Tid, live: Pid, stop: Stop, rest: seq<Stop>)
    requires r.event.body.SyscallEnter? && Directed(p, r, p1, t, live, stop, rest)
    ensures var nr := r.event.body.nr;
            && (Consume(p, r).Ok? <==> stop.Syscall? && stop.regs.nr == nr)
            && (Consume(p, r) == Err(Diverged(r.seqNo)) <==> stop.Syscall? && stop.regs.nr != nr)
            && (Consume(p, r).Err? ==> Consume(p, r).error in {Diverged(r.seqNo), ScheduleDiverged(r.seqNo)})
    ensures Consume(p, r).Ok? ==> EffectOf(p, Consume(p, r).value, r, t, live, stop, rest)
  {
    EntryShape(p, r, p1, t, live, stop, rest);
    hide Consume, Directed, Entered, EffectOf;
    if Consume(p, r).Ok? {
      EntryEffect(p, Consume(p, r).value, r, t, live, stop, rest);
    }
  }

  lemma ExitsWhatFits(p: Rep, r: Record, p1: Rep, t: Tid, live: Pid, stop: Stop, rest: seq<Stop>)
    requires r.event.body.SyscallExit? && Directed(p, r, p1, t, live, stop, rest)
    ensures Consume(p, r).Ok? <==> stop.Syscall? && live in p.threads && p.threads[live].pending.Some?
    ensures Consume(p, r).Err? ==> Consume(p, r).error == ScheduleDiverged(r.seqNo)
    ensures Consume(p, r).Ok? ==> EffectOf(p, Consume(p, r).value, r, t, live, stop, rest)
  {
    hide Attend, SkipExecs, Table;
  }

  lemma SpawnsWhatFits(p: Rep, r: Record, p1: Rep, t: Tid, live: Pid, stop: Stop, rest: seq<Stop>)
    requires r.event.body.ThreadSpawn? && Directed(p, r, p1, t, live, stop, rest)
    ensures Consume(p, r).Ok? <==> stop.Spawn? && Ready(p, r.event.body, t, live, stop)
    ensures Consume(p, r).Err? ==> Consume(p, r).error == ScheduleDiverged(r.seqNo)
    ensures Consume(p, r).Ok? ==> EffectOf(p, Consume(p, r).value, r, t, live, stop, rest)
  {
    SpawnShape(p, r, p1, t, live, stop, rest);
    hide Consume, Directed, Table, ProcsAfter, ThreadsAfter, BooksAfter;
    if stop.Spawn? && Ready(p, r.event.body, t, live, stop) {
      SpawnEffect(p, Consume(p, r).value, r, t, live, stop, rest);
    }
  }

  ghost function HandedOn(p: Rep, live: Pid): seq<Signal> {
    if live in p.threads then AsSeq(p.threads[live].resumeSignal) else []
  }

  /** The state after a birth, as one update. */
  ghost predicate Born(p: Rep, n: Rep, r: Record, t: Tid, live: Pid, stop: Stop, rest: seq<Stop>)
    requires live in p.procs && stop.Spawn? && r.event.body.ThreadSpawn?
  {
    var child, proc := stop.child, p.procs[live];
    && n.procs == p.procs[live := LiveProc(rest, proc.delivered + HandedOn(p, live), proc.injected)]
                         [child.live := LiveProc(child.stops, [], [])]
    && n.threads == (if live in p.threads then p.threads[live := ThreadRt(p.threads[live].pending, None)]
                     else p.threads)
                    [child.live := NewThreadRt]
    && n.tidmap == TidMap(Table(p, t).toLive[r.event.body.child := child.live],
                          Table(p, t).toRecorded[child.live := r.event.body.child])
    && n.cursor == p.cursor + 1 && n.currentSeq == Some(r.seqNo) && n.expectedTid == Some(t)
    && n.leader == p.leader && n.stepped == p.stepped + [Some(live)] && n.finished == p.finished
    && n.lastRegs == p.lastRegs
    && n.vforkSuspended == (if stop.how == ByVfork then p.vforkSuspended[child.live := live] else p.vforkSuspended)
  }

  lemma SpawnShape(p: Rep, r: Record, p1: Rep, t: Tid, live: Pid, stop: Stop, rest: seq<Stop>)
    requires r.event.body.ThreadSpawn? && Directed(p, r, p1, t, live, stop, rest)
    ensures live in p.procs
    ensures Consume(p, r).Ok? <==> stop.Spawn? && Ready(p, r.event.body, t, live, stop)
    ensures Consume(p, r).Err? ==> Consume(p, r).error == ScheduleDiverged(r.seqNo)
    ensures Consume(p, r).Ok? ==> Born(p, Consume(p, r).value, r, t, live, stop, rest)
  {
    hide Attend, SkipExecs, Table;
  }

  lemma SpawnEffect(p: Rep, n: Rep, r: Record, t: Tid, live: Pid, stop: Stop, rest: seq<Stop>)
    requires live in p.procs && stop.Spawn? && r.event.body.ThreadSpawn? && Born(p, n, r, t, live, stop, rest)
    ensures EffectOf(p, n, r, t, live, stop, rest)
  {
    hide Table;
    assert p.procs[live].injected + [] == p.procs[live].injected;
  }

  /** The state after a death, as one update. */
  ghost predicate Gone(p: Rep, n: Rep, r: Record, t: Tid, live: Pid, stop: Stop)
    requires stop.Exit? || stop.Killed?
  {
    && n.procs == p.procs - {live} && n.threads == SignalTaken(p, live).threads - {live}
    && n.tidmap == Table(p, t).Unbind(t) && n.vforkSuspended == p.vforkSuspended - {live}
    && n.cursor == p.cursor + 1 && n.currentSeq == Some(r.seqNo) && n.expectedTid == Some(t)
    && n.leader == p.leader && n.stepped == p.stepped + [Some(live)] && n.lastRegs == p.lastRegs
    && n.finished == (if live == p.leader
                      then Some(if stop.Exit? then HasExited(stop.code) else HasSignaled(stop.sig)) else p.finished)
  }

  lemma DeathShape(p: Rep, r: Record, p1: Rep, t: Tid, live: Pid, stop: Stop, rest: seq<Stop>)
    requires r.event.body.ThreadExit? && Directed(p, r, p1, t, live, stop, rest)
    ensures Consume(p, r).Ok? <==> stop.Exit? || stop.Killed?
    ensures Consume(p, r).Err? ==> Consume(p, r).error == ScheduleDiverged(r.seqNo)
    ensures Consume(p, r).Ok? ==> Gone(p, Consume(p, r).value, r, t, live, stop)
  {
    hide Attend, SkipExecs, Table, TidMap.Unbind, WaitingSignal;
  }

  lemma DeathEffect(p: Rep, n: Rep, r: Record, t: Tid, live: Pid, stop: Stop, rest: seq<Stop>)
    requires live in p.procs && r.event.body.ThreadExit? && (stop.Exit? || stop.Killed?)
    requires Gone(p, n, r, t, live, stop)
    ensures EffectOf(p, n, r, t, live, stop, rest)
  {
    hide Table;
  }

  lemma DiesAsFits(p: Rep, r: Record, p1: Rep, t: Tid, live: Pid, stop: Stop, rest: seq<Stop>)
    requires r.event.body.ThreadExit? && Directed(p, r, p1, t, live, stop, rest)
    ensures Consume(p, r).Ok? <==> stop.Exit? || stop.Killed?
    ensures Consume(p, r).Err? ==> Consume(p, r).error == ScheduleDiverged(r.seqNo)
    ensures Consume(p, r).Ok? ==> EffectOf(p, Consume(p, r).value, r, t, live, stop, rest)
  {
    DeathShape(p, r, p1, t, live, stop, rest);
    assert live in p.procs;
    hide Consume, Directed, Table, EffectOf, Gone;
    if stop.Exit? || stop.Killed? {
      DeathEffect(p, Consume(p, r).value, r, t, live, stop, rest);
    }
  }

  lemma DeliversWhatFits(p: Rep, r: Record, p1: Rep, t: Tid, live: Pid, stop: Stop, rest: seq<Stop>)
    requires r.event.body.Delivery? && Directed(p, r, p1, t, live, stop, rest)
    ensures Consume(p, r).Ok? <==> stop == Raise(r.event.body.signum)
    ensures Consume(p, r).Err? ==> Consume(p, r).error == ScheduleDiverged(r.seqNo)
    ensures Consume(p, r).Ok? ==> EffectOf(p, Consume(p, r).value, r, t, live, stop, rest)
  {
    hide Attend, SkipExecs, Table;
  }

  /** The other records direct no thread: a switch names the next one, a mark is passed over. */
  lemma PassesOver(p: Rep, r: Record)
    requires r.event.body.Checkpoint? || r.event.body.SchedSwitch?
    ensures Consume(p, r)
         == Ok(p.(cursor := p.cursor + 1, stepped := p.stepped + [None],
                  expectedTid := if r.event.body.SchedSwitch? then Some(r.event.body.next) else p.expectedTid,
                  currentSeq := if r.event.body.SchedSwitch? then Some(r.seqNo) else p.currentSeq))
  {
  }

  /** A record that does not fit is not consumed, but the process it directed has moved to
      its stop and was handed its waiting signal. */
  lemma MisfitLeaves(p: Rep, r: Record, t: Tid, live: Pid, stop: Stop, rest: seq<Stop>)
    requires DirectsThread(r.event.body) && Names(p, r, t, live)
    requires live in p.procs && NextIs(p.procs[live].rest, stop, rest) && Consume(p, r).Err?
    ensures var n := ConsumeLeaves(p, r);
            var handed := if r.event.body.SyscallExit? then [] else HandedOn(p, live);
            && n.cursor == p.cursor && n.currentSeq == p.currentSeq && n.finished == p.finished
            && n.expectedTid == Some(t) && n.tidmap == Table(p, t) && n.stepped == p.stepped
            && (if stop.Exit? || stop.Killed? then n.procs == p.procs - {live}
                else live in n.procs && (!stop.Spawn? ==> n.procs == p.procs[live := n.procs[live]]))
            && (live in n.procs && !stop.Spawn? ==> MovedOn(p.procs[live], n.procs[live], rest, handed, []))
            && n.threads.Keys == p.threads.Keys
            && (forall u: nat :: u in p.threads ==> n.threads[u] == ThreadRt(p.threads[u].pending,
                  if u == live && !r.event.body.SyscallExit? then None else p.threads[u].resumeSignal))
  {
    AttendNames(p, r);
    NextIsSkipped(p.procs[live].rest, stop, rest);
    hide Names, NextIs, Table, Consume, ConsumeLeaves, SkipExecs, Attend;
    LeavesShape(p, r, p.(expectedTid := Some(t), tidmap := Table(p, t)), t, live, stop, rest);
    assert p.procs[live].injected + [] == p.procs[live].injected;
  }

  lemma LeavesShape(p: Rep, r: Record, p1: Rep, t: Tid, live: Pid, stop: Stop, rest: seq<Stop>)
    requires DirectsThread(r.event.body) && Directed(p, r, p1, t, live, stop, rest)
    ensures live in p.procs
    ensures var exit, proc := r.event.body.SyscallExit?, p.procs[live];
            var moved := LiveProc(rest, proc.delivered + (if exit then [] else HandedOn(p, live)), proc.injected);
            ConsumeLeaves(p, r)
            == RegsRead(p1.(procs := if IsDeath(stop) then p.procs - {live}
                                     else if stop.Spawn? then
                                       p.procs[live := moved][stop.child.live := LiveProc(stop.child.stops, [], [])]
                                     else p.procs[live := moved],
                            threads := if exit then p.threads else SignalTaken(p, live).threads), r, stop)
  {
    hide Attend, SkipExecs, Table, RegsRead;
  }

  // ---- Every record, and whole drives ---------------------------------------------------------

  /** The record can be consumed: it directs no thread, or the thread it names is at a stop that fits. */
  ghost predicate Acceptable(p: Rep, r: Record) {
    || r.event.body.Checkpoint? || r.event.body.SchedSwitch?
    || (DirectsThread(r.event.body)
        && exists t: nat, live: nat, stop, rest :: FitsNow(p, r, t, live, stop, rest))
  }

  ghost predicate AtStop(p: Rep, r: Record, t: Tid, live: Pid, stop: Stop, rest: seq<Stop>) {
    Names(p, r, t, live) && live in p.procs && NextIs(p.procs[live].rest, stop, rest)
  }

  ghost predicate FitsNow(p: Rep, r: Record, t: Tid, live: Pid, stop: Stop, rest: seq<Stop>) {
    AtStop(p, r, t, live, stop, rest) && Fits(r.event.body, stop) && Ready(p, r.event.body, t, live, stop)
  }

  /** What is reported of a record that cannot be consumed: an unknown kind, a thread that is
      gone, one with no stop left, another syscall number, or else a broken schedule. */
  ghost predicate Complains(p: Rep, r: Record, e: ReplayError) {
    if r.event.body.OtherKind? then e == UnexpectedRecord(r.seqNo)
    else match e
      case NoSuchProcess => exists t: nat, live: nat :: Names(p, r, t, live) && live !in p.procs
      case NeverStops =>
        exists t: nat, live: nat ::
          Names(p, r, t, live) && live in p.procs
          && forall i :: 0 <= i < |p.procs[live].rest| ==> p.procs[live].rest[i].Exec?
      case Diverged(seqNo) =>
        && seqNo == r.seqNo && r.event.body.SyscallEnter?
        && exists t: nat, live: nat, stop, rest ::
             AtStop(p, r, t, live, stop, rest) && stop.Syscall? && stop.regs.nr != r.event.body.nr
      case ScheduleDiverged(seqNo) =>
        && seqNo == r.seqNo
        && forall t: nat, live: nat, stop, rest :: AtStop(p, r, t, live, stop, rest) ==>
             !(r.event.body.SyscallEnter? && stop.Syscall?)
      case _ => false
  }

  lemma {:induction false} AllExecs(script: seq<Stop>)
    ensures SkipExecs(script) == [] <==> forall i :: 0 <= i < |script| ==> script[i].Exec?
    decreases |script|
  {
    if script != [] && script[0].Exec? {
      AllExecs(script[1..]);
      assert forall i :: 0 < i < |script| ==> script[i] == script[1..][i - 1];
    }
  }

  lemma StepsNobody(p: Rep, r: Record, t: Tid, live: Pid)
    requires DirectsThread(r.event.body) && Names(p, r, t, live)
    ensures live !in p.procs ==> Consume(p, r) == Err(NoSuchProcess)
    ensures live in p.procs && SkipExecs(p.procs[live].rest) == [] ==> Consume(p, r) == Err(NeverStops)
  {
    AttendNames(p, r);
    hide Attend, SkipExecs, Names, Table;
  }

  lemma NamesOne(p: Rep, r: Record)
    ensures forall t: nat, live: nat, t': nat, live': nat ::
              Names(p, r, t, live) && Names(p, r, t', live') ==> t == t' && live == live'
  {
  }

  lemma NextIsOne(script: seq<Stop>)
    ensures forall a, x, b, y :: NextIs(script, a, x) && NextIs(script, b, y) ==> a == b && x == y
  {
    forall a, x, b, y | NextIs(script, a, x) && NextIs(script, b, y) ensures a == b && x == y {
      NextIsSkipped(script, a, x);
      NextIsSkipped(script, b, y);
    }
  }

  /** A record is consumed exactly when it is acceptable; otherwise what is reported is what is wrong with it. */
  lemma ConsumeDecides(p: Rep, r: Record)
    ensures Consume(p, r).Ok? <==> Acceptable(p, r)
    ensures Consume(p, r).Err? ==> Complains(p, r, Consume(p, r).error)
  {
    if DirectsThread(r.event.body) {
      AttendNames(p, r);
      NamesOne(p, r);
      hide Consume, Attend, Table;
      if exists t: nat, live: nat :: Names(p, r, t, live) {
        var t: nat, live: nat :| Names(p, r, t, live);
        DecidesFor(p, r, t, live);
      } else {
        NobodyNamed(p, r);
      }
    }
  }

  lemma NobodyNamed(p: Rep, r: Record)
    requires DirectsThread(r.event.body) && forall t: nat, live: nat :: !Names(p, r, t, live)
    ensures Consume(p, r) == Err(ScheduleDiverged(r.seqNo))
  {
    AttendNames(p, r);
    hide Attend, Names, Table;
  }

  lemma DecidesFor(p: Rep, r: Record, t: Tid, live: Pid)
    requires DirectsThread(r.event.body) && Names(p, r, t, live)
    ensures Consume(p, r).Ok? <==> Acceptable(p, r)
    ensures Consume(p, r).Err? ==> Complains(p, r, Consume(p, r).error)
  {
    NamesOne(p, r);
    StepsNobody(p, r, t, live);
    hide Consume, Names, NextIs, Fits, Ready;
    if live in p.procs {
      var script := p.procs[live].rest;
      AllExecs(script);
      NextIsOne(script);
      if SkipExecs(script) != [] {
        var stop, rest := SkipExecs(script)[0], SkipExecs(script)[1..];
        NextIsSkipped(script, stop, rest);
        assert AtStop(p, r, t, live, stop, rest);
        DecidesAt(p, r, t, live, stop, rest);
      } else {
        forall stop, rest ensures !NextIs(script, stop, rest) {
          NextIsSkipped(script, stop, rest);
        }
      }
    }
  }

  lemma DecidesAt(p: Rep, r: Record, t: Tid, live: Pid, stop: Stop, rest: seq<Stop>)
    requires DirectsThread(r.event.body) && AtStop(p, r, t, live, stop, rest)
    requires forall t': nat, live': nat, stop', rest' ::
               AtStop(p, r, t', live', stop', rest') ==> t' == t && live' == live && stop' == stop && rest' == rest
    ensures Consume(p, r).Ok? <==> Acceptable(p, r)
    ensures Consume(p, r).Err? ==> Complains(p, r, Consume(p, r).error)
  {
    ConsumesWhatFits(p, r, t, live, stop, rest);
    hide Consume, Names, NextIs, EffectOf, Ready;
    assert Acceptable(p, r) <==> FitsNow(p, r, t, live, stop, rest);
  }

  /** The state `k` records into a drive. */
  ghost function StateAt(records: seq<Record>, p: Rep, k: nat): Option<Rep> {
    if k == 0 then Some(p)
    else match StateAt(records, p, k - 1)
      case None => None
      case Some(q) =>
        if q.finished.Some? || q.cursor >= |records| || Consume(q, records[q.cursor]).Err? then None
        else Some(Consume(q, records[q.cursor]).value)
  }

  ghost predicate Reached(p: Rep, stopAt: Option<nat>) {
    stopAt.Some? && p.currentSeq.Some? && p.currentSeq.value >= stopAt.value
  }

  /** A drive takes records as long as they fit, on any log and against any scripts. It
      ends where it is asked to, with the leader, at the end of the log, or with the first
      record that does not fit, which is the one it reports. */
  ghost predicate EndsRightly(records: seq<Record>, q: Rep, stopAt: Option<nat>, d: Outcome<(Rep, ExitOutcome)>) {
    match d
    case Ok((n, outcome)) => n == q && (q.finished == Some(outcome) || (Reached(q, stopAt) && outcome == StillRunning))
    case Err(e) =>
      && q.finished.None? && !Reached(q, stopAt)
      && (if q.cursor >= |records| then e == TraceExhausted
          else !Acceptable(q, records[q.cursor]) && Complains(q, records[q.cursor], e))
  }

  ghost predicate TookAcceptable(records: seq<Record>, p: Rep, k: nat, stopAt: Option<nat>) {
    && StateAt(records, p, k).Some?
    && var q := StateAt(records, p, k).value;
       q.finished.None? && !Reached(q, stopAt) && q.cursor < |records| && Acceptable(q, records[q.cursor])
  }

  lemma {:induction false} DriveReportsFirstMisfit(records: seq<Record>, p: Rep, stopAt: Option<nat>, k: nat, q: Rep)
      returns (n: nat)
    requires StateAt(records, p, k) == Some(q)
    ensures k <= n && StateAt(records, p, n).Some?
    ensures EndsRightly(records, StateAt(records, p, n).value, stopAt, Drive(records, q, stopAt))
    ensures forall j :: k <= j < n ==> TookAcceptable(records, p, j, stopAt)
    decreases |records| - q.cursor
  {
    hide Consume, Acceptable, Complains;
    n := k;
    if q.finished.None? && !Reached(q, stopAt) && q.cursor < |records| {
      ConsumeDecides(q, records[q.cursor]);
      match Consume(q, records[q.cursor])
      case Err(_) =>
      case Ok(next) =>
        CursorMoves(q, records[q.cursor]);
        n := DriveReportsFirstMisfit(records, p, stopAt, k + 1, next);
    }
  }

  lemma CursorMoves(p: Rep, r: Record)
    requires Consume(p, r).Ok?
    ensures Consume(p, r).value.cursor == p.cursor + 1
  {
    hide OnSyscallEnter, OnSyscallExit, OnThreadSpawn, OnThreadExit, OnSignal;
  }

  /** The same from launch: what a drive of any log does to any target. */
  lemma DriveConforms(records: seq<Record>, leader: Proc, stopAt: Option<nat>) returns (n: nat)
    ensures StateAt(records, Launch(leader), n).Some?
    ensures EndsRightly(records, StateAt(records, Launch(leader), n).value, stopAt,
                        Drive(records, Launch(leader), stopAt))
    ensures forall j :: 0 <= j < n ==> TookAcceptable(records, Launch(leader), j, stopAt)
  {
    n := DriveReportsFirstMisfit(records, Launch(leader), stopAt, 0, Launch(leader));
  }
}
