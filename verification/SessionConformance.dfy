/** What one turn of the single-tracee driver demands and does, and where a run starts. */
module SessionConformance {
  import opened Common
  import opened Injection
  import opened Scheduling
  import opened MtReplay
  import opened CheckpointSelect
  import opened Session

  /** The first record from the cursor on that is no checkpoint mark, or the end of the log. */
  ghost predicate NextRecordAt(records: seq<Record>, cursor: nat, at: nat) {
    && cursor <= at && (at < |records| ==> !records[at].event.body.Checkpoint?)
    && (forall k :: cursor <= k < at && k < |records| ==> records[k].event.body.Checkpoint?)
    && (at > |records| ==> at == cursor)
  }

  lemma SkipsTo(records: seq<Record>, cursor: nat, at: nat)
    requires NextRecordAt(records, cursor, at)
    ensures SkipCheckpoints(records, cursor) == at
  {
  }

  /** The tracee resumed, with its waiting signal, to its next stop. */
  function Resumed<T(!new)>(env: Env<T>, s: Seat<T>): (T, TraceeStop)
    requires s.Single?
  {
    env.machine.resume(s.tracee, s.resumeSignal)
  }

  /** At a syscall entry the next record must be an entry of that very number. The five
      captured syscalls, and no others, are suppressed and their destination kept. */
  lemma EntryConforms<T(!new)>(env: Env<T>, s: Seat<T>, at: nat)
    requires s.Single? && NextRecordAt(env.records, s.cursor, at)
    requires Resumed(env, s).1.AtSyscall? && s.pending.None?
    ensures var tracee := Resumed(env, s).0;
            var regs := env.machine.regs(tracee);
            var captured := regs.nr in {0, 17, 45, 228, 318};
            match Step(env, s)
            case Ok((n, syscallStop)) =>
              && syscallStop && at < |env.records| && env.records[at].event.body.SyscallEnter?
              && env.records[at].event.body.nr == regs.nr
              && n == s.(tracee := if captured then env.machine.suppress(tracee) else tracee, cursor := at + 1,
                         currentSeq := Some(env.records[at].seqNo), resumeSignal := None, lastRegs := Some(regs),
                         pending := Some(Pending(Destination(regs.nr, regs.args))))
              && n.pending.value.injectAddr.Some? == captured
            case Err(e) =>
              if at >= |env.records| then e == TraceExhausted
              else if !env.records[at].event.body.SyscallEnter? then e == UnexpectedRecord(env.records[at].seqNo)
              else env.records[at].event.body.nr != regs.nr && e == Diverged(env.records[at].seqNo)
  {
    SkipsTo(env.records, s.cursor, at);
    hide SkipCheckpoints, NextRecordAt;
  }

  /** At a syscall exit the next record must be an exit; its bytes and value go to the
      address kept at the entry, or nowhere for a real syscall. */
  lemma ExitConforms<T(!new)>(env: Env<T>, s: Seat<T>, at: nat)
    requires s.Single? && NextRecordAt(env.records, s.cursor, at)
    requires Resumed(env, s).1.AtSyscall? && s.pending.Some?
    ensures var tracee := Resumed(env, s).0;
            match Step(env, s)
            case Ok((n, syscallStop)) =>
              && syscallStop && at < |env.records| && env.records[at].event.body.SyscallExit?
              && var body := env.records[at].event.body;
                 n == s.(tracee := match s.pending.value.injectAddr
                                   case Some(addr) => env.machine.inject(tracee, addr, body.data, body.ret)
                                   case None => tracee,
                         cursor := at + 1, currentSeq := Some(env.records[at].seqNo), resumeSignal := None,
                         lastRegs := Some(env.machine.regs(tracee)), pending := None)
            case Err(e) =>
              if at >= |env.records| then e == TraceExhausted
              else !env.records[at].event.body.SyscallExit? && e == UnexpectedRecord(env.records[at].seqNo)
  {
    SkipsTo(env.records, s.cursor, at);
    hide SkipCheckpoints, NextRecordAt;
  }

  /** A signal stop is forwarded at the next resume. If the next record is a delivery it must be of
      that very signal, and is consumed; any other record waits. */
  lemma SignalConforms<T(!new)>(env: Env<T>, s: Seat<T>, at: nat, sig: Signal)
    requires s.Single? && NextRecordAt(env.records, s.cursor, at) && Resumed(env, s).1 == SignalStop(sig)
    ensures var tracee := Resumed(env, s).0;
            var delivery := at < |env.records| && env.records[at].event.body.Delivery?;
            match Step(env, s)
            case Ok((n, syscallStop)) =>
              && !syscallStop && (delivery ==> env.records[at].event.body.signum == sig)
              && n == s.(tracee := tracee, resumeSignal := Some(sig), cursor := if delivery then at + 1 else at,
                         currentSeq := if delivery then Some(env.records[at].seqNo) else s.currentSeq)
            case Err(e) =>
              delivery && env.records[at].event.body.signum != sig && e == ScheduleDiverged(env.records[at].seqNo)
  {
    SkipsTo(env.records, s.cursor, at);
    hide SkipCheckpoints, NextRecordAt;
  }

  /** Death ends the replay with its outcome; any other stop is passed over. Neither takes a record. */
  lemma OtherStopConforms<T(!new)>(env: Env<T>, s: Seat<T>)
    requires s.Single? && !Resumed(env, s).1.AtSyscall? && !Resumed(env, s).1.SignalStop?
    ensures Step(env, s)
         == Ok((s.(tracee := Resumed(env, s).0, resumeSignal := None,
                   finished := match Resumed(env, s).1
                               case ExitedWith(code) => Some(HasExited(code))
                               case KilledBy(sig) => Some(HasSignaled(sig))
                               case _ => s.finished), false))
  {
  }

  /** What a failing turn leaves of a single tracee. */
  lemma MisfitLeavesSeat<T(!new)>(env: Env<T>, s: Seat<T>, at: nat)
    requires s.Single? && NextRecordAt(env.records, s.cursor, at) && Step(env, s).Err?
    ensures var n, tracee := StepLeaves(env, s), Resumed(env, s).0;
            if Resumed(env, s).1.AtSyscall?
            then n == s.(tracee := tracee, resumeSignal := None, pending := None,
                         lastRegs := Some(env.machine.regs(tracee)),
                         cursor := if at < |env.records| then at + 1 else at)
            else n == s.(tracee := tracee, resumeSignal := None, cursor := at)
  {
    SkipsTo(env.records, s.cursor, at);
    hide SkipCheckpoints, NextRecordAt;
  }

  // ---- Where a run starts --------------------------------------------------------------------

  /** How far along a seat is: entry counts as 0. */
  function Along(reached: Option<nat>): nat {
    if reached.Some? then reached.value else 0
  }

  /** `re` is the session re-seated at the last checkpoint at or before the target, or at entry
      if there is none. */
  ghost predicate Nearest<T(!new)>(env: Env<T>, st: State<T>, target: nat, re: State<T>) {
    if exists i :: 0 <= i < |st.checkpoints| && st.checkpoints[i].seqNo <= target
    then
      exists i :: 0 <= i < |st.checkpoints| && re == st.(seat := SnapshotSeat(st.checkpoints[i]))
                  && st.checkpoints[i].seqNo <= target
                  && forall j :: 0 <= j < |st.checkpoints| && st.checkpoints[j].seqNo <= target ==>
                       st.checkpoints[j].seqNo <= st.checkpoints[i].seqNo
    else re == st.(seat := Entry(env))
  }

  /** A restore goes to the last checkpoint at or before the target, or to entry if there is none. */
  lemma RestoresNearest<T(!new)>(env: Env<T>, st: State<T>, target: nat)
    requires forall i, j :: 0 <= i < j < |st.checkpoints| ==> st.checkpoints[i].seqNo < st.checkpoints[j].seqNo
    ensures Nearest(env, st, target, RestoreTo(env, st, target))
  {
    var seqs := Seqs(st.checkpoints);
    NearestIsClosest(seqs, target);
    match PlanStart(st, target)
    case None =>
      assert forall i :: 0 <= i < |seqs| ==> seqs[i] > target;
    case Some(i) =>
      assert forall j :: 0 <= j < |seqs| && seqs[j] <= target ==> seqs[j] <= seqs[i];
      assert RestoreTo(env, st, target) == st.(seat := SnapshotSeat(st.checkpoints[i]));
  }

  /** No checkpoint at or before the target is ahead of `here`. */
  ghost predicate NoneAhead<T(!new)>(st: State<T>, target: nat, here: nat) {
    forall i :: 0 <= i < |st.checkpoints| && st.checkpoints[i].seqNo <= target ==> st.checkpoints[i].seqNo <= here
  }

  /** `run_to` goes backward exactly when it must, and re-executes no more than it must:
      it stays where it is unless the target lies behind or a checkpoint ahead, and
      starts no earlier than any checkpoint at or before its target. */
  lemma RunsFromNearest<T(!new)>(env: Env<T>, st: State<T>, target: nat)
    requires forall i, j :: 0 <= i < j < |st.checkpoints| ==> st.checkpoints[i].seqNo < st.checkpoints[j].seqNo
    requires forall i :: 0 <= i < |st.checkpoints| ==>
               st.checkpoints[i].seqNo > 0 && st.checkpoints[i].currentSeq == Some(st.checkpoints[i].seqNo)
    ensures var start := RunStart(env, st, target).seat;
            var here := Along(st.seat.Seq());
            && Along(start.Seq()) <= target
            && (forall i :: 0 <= i < |st.checkpoints| && st.checkpoints[i].seqNo <= target ==>
                  st.checkpoints[i].seqNo <= Along(start.Seq()))
            && (here <= target ==> here <= Along(start.Seq()))
            && (here <= target && NoneAhead(st, target, here) ==> RunStart(env, st, target) == st)
  {
    hide RestoreTo;
    RestoresNearest(env, st, target);
    StartsAt(env, st, target);
  }

  lemma StartsAt<T(!new)>(env: Env<T>, st: State<T>, target: nat)
    requires forall i, j :: 0 <= i < j < |st.checkpoints| ==> st.checkpoints[i].seqNo < st.checkpoints[j].seqNo
    requires forall i :: 0 <= i < |st.checkpoints| ==>
               st.checkpoints[i].seqNo > 0 && st.checkpoints[i].currentSeq == Some(st.checkpoints[i].seqNo)
    ensures Along(RestoreTo(env, st, target).seat.Seq()) == StartSeq(st, target) <= target
    ensures forall i :: 0 <= i < |st.checkpoints| && st.checkpoints[i].seqNo <= target ==>
              st.checkpoints[i].seqNo <= StartSeq(st, target)
    ensures StartSeq(st, target) == 0
         || exists i :: 0 <= i < |st.checkpoints| && st.checkpoints[i].seqNo == StartSeq(st, target)
  {
    var seqs := Seqs(st.checkpoints);
    NearestIsClosest(seqs, target);
    assert forall j :: 0 <= j < |seqs| ==> seqs[j] == st.checkpoints[j].seqNo;
  }

  // ---- What each call does ---------------------------------------------------------------------

  /** The seat after so many turns, if none of them fails. */
  ghost function Turns<T(!new)>(env: Env<T>, s: Seat<T>, k: nat): Option<Seat<T>>
    decreases k
  {
    if k == 0 then Some(s)
    else match Step(env, s)
      case Err(_) => None
      case Ok((n, _)) => Turns(env, n, k - 1)
  }

  /** The replay is over, or has reached the seq asked for. */
  ghost predicate Done<T(!new)>(s: Seat<T>, stopAt: Option<nat>) {
    s.Finished().Some? || (stopAt.Some? && s.Seq().Some? && stopAt.value <= s.Seq().value)
  }

  /** From one seat to the other in `k` turns, the other being the first at which to stop. */
  ghost predicate Goes<T(!new)>(env: Env<T>, s: Seat<T>, stopAt: Option<nat>, k: nat, to: Seat<T>) {
    && Turns(env, s, k) == Some(to) && Done(to, stopAt)
    && forall j: nat :: j < k ==> Turns(env, s, j).Some? && !Done(Turns(env, s, j).value, stopAt)
  }

  lemma GoesOnward<T(!new)>(env: Env<T>, s: Seat<T>, stopAt: Option<nat>, k: nat, to: Seat<T>)
    requires !Done(s, stopAt) && Step(env, s).Ok? && Goes(env, Step(env, s).value.0, stopAt, k, to)
    ensures Goes(env, s, stopAt, k + 1, to)
  {
    hide Step, Done;
    var n := Step(env, s).value.0;
    forall j: nat | j < k + 1 ensures Turns(env, s, j).Some? && !Done(Turns(env, s, j).value, stopAt) {
      if j > 0 {
        assert Turns(env, s, j) == Turns(env, n, j - 1);
      }
    }
  }

  lemma {:induction false} DriveGoes<T(!new)>(env: Env<T>, st: State<T>, stopAt: Option<nat>, fuel: nat)
      returns (k: nat)
    requires DriveSession(env, st, stopAt, fuel).Ok?
    ensures var (n, outcome) := DriveSession(env, st, stopAt, fuel).value;
            && Goes(env, st.seat, stopAt, k, n.seat) && DriveEnds(env, st, stopAt, fuel) == n
            && n.interval == st.interval && st.checkpoints <= n.checkpoints
            && outcome == if n.seat.Finished().Some? then n.seat.Finished().value else StillRunning
    decreases fuel
  {
    hide Step;
    k := 0;
    if !Done(st.seat, stopAt) {
      var (seat, syscallStop) := Step(env, st.seat).value;
      var moved := st.(seat := seat);
      var next := if syscallStop then MaybeCheckpoint(env, moved) else moved;
      assert next.seat == seat && next.interval == st.interval && st.checkpoints <= next.checkpoints;
      hide MaybeCheckpoint, Goes;
      var more := DriveGoes(env, next, stopAt, fuel - 1);
      GoesOnward(env, st.seat, stopAt, more, DriveSession(env, st, stopAt, fuel).value.0.seat);
      k := more + 1;
    }
  }

  /** After `k` turns the replay is at this seat, not done before or there. */
  ghost predicate GetsTo<T(!new)>(env: Env<T>, s: Seat<T>, stopAt: Option<nat>, k: nat, at: Seat<T>) {
    && Turns(env, s, k) == Some(at)
    && forall j: nat :: j <= k ==> Turns(env, s, j).Some? && !Done(Turns(env, s, j).value, stopAt)
  }

  lemma GetsOnward<T(!new)>(env: Env<T>, s: Seat<T>, stopAt: Option<nat>, k: nat, at: Seat<T>)
    requires !Done(s, stopAt) && Step(env, s).Ok? && GetsTo(env, Step(env, s).value.0, stopAt, k, at)
    ensures GetsTo(env, s, stopAt, k + 1, at)
  {
    hide Step, Done;
    var n := Step(env, s).value.0;
    forall j: nat | j <= k + 1 ensures Turns(env, s, j).Some? && !Done(Turns(env, s, j).value, stopAt) {
      if j > 0 {
        assert Turns(env, s, j) == Turns(env, n, j - 1);
      }
    }
  }

  /** A drive that fails has got to a seat from which the next turn fails, and reports that
      turn's error; it leaves the seat that turn leaves. */
  lemma {:induction false} DriveFails<T(!new)>(env: Env<T>, st: State<T>, stopAt: Option<nat>, fuel: nat,
                                              e: ReplayError)
      returns (k: nat, at: Seat<T>)
    requires DriveSession(env, st, stopAt, fuel) == Err(Failed(e))
    ensures GetsTo(env, st.seat, stopAt, k, at) && Step(env, at) == Err(e)
    ensures DriveEnds(env, st, stopAt, fuel).seat == StepLeaves(env, at)
    decreases fuel
  {
    hide Step, StepLeaves;
    k, at := 0, st.seat;
    if Step(env, st.seat).Ok? {
      var (seat, syscallStop) := Step(env, st.seat).value;
      var moved := st.(seat := seat);
      var next := if syscallStop then MaybeCheckpoint(env, moved) else moved;
      assert next.seat == seat;
      hide MaybeCheckpoint, GetsTo;
      k, at := DriveFails(env, next, stopAt, fuel - 1, e);
      GetsOnward(env, st.seat, stopAt, k, at);
      k := k + 1;
    }
  }

  ghost predicate GoesThere<T(!new)>(env: Env<T>, s: Seat<T>, stopAt: Option<nat>, to: Seat<T>) {
    exists k: nat :: Goes(env, s, stopAt, k, to)
  }

  /** What every call that returns has done: a drive has taken turns up to the first seat at which to
      stop, from where it stood or, for `run_to`, from where it starts; a restore has re-seated the
      session; and only a call that sets the interval has changed it. */
  lemma CallsMean<T(!new)>(env: Env<T>, st: State<T>, c: Command, n: State<T>)
    requires forall i, j :: 0 <= i < j < |st.checkpoints| ==> st.checkpoints[i].seqNo < st.checkpoints[j].seqNo
    requires Apply(env, st, c) == Ok(n)
    ensures n == Ends(env, st, c)
    ensures match c
            case DoRunTo(target, _) => GoesThere(env, RunStart(env, st, target).seat, Some(target), n.seat)
            case DoStepTo(target, _) => GoesThere(env, st.seat, Some(target), n.seat)
            case DoRunToEnd(_) => GoesThere(env, st.seat, None, n.seat)
            case DoRestoreTo(target) => Nearest(env, st, target, n)
            case DoSetInterval(interval) => n == st.(interval := interval)
    ensures !c.DoSetInterval? ==> n.interval == st.interval && st.checkpoints <= n.checkpoints
  {
    hide DriveSession, DriveEnds, Goes, Nearest;
    match c
    case DoRunTo(target, fuel) => var k := DriveGoes(env, RunStart(env, st, target), Some(target), fuel);
    case DoStepTo(target, fuel) => var k := DriveGoes(env, st, Some(target), fuel);
    case DoRunToEnd(fuel) => var k := DriveGoes(env, st, None, fuel);
    case DoRestoreTo(target) => RestoresNearest(env, st, target);
    case DoSetInterval(_) =>
  }
}
