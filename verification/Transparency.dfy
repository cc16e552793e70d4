/** Checkpoints are a cache: a session that used them sits where a fresh one would. */
module Transparency {
  import opened Common
  import opened MtReplay
  import opened Session

  // ---- The one path a deterministic replay takes ---------------------------------

  /** The seat after `n` turns from entry, if replay gets that far. */
  ghost function At<T(!new)>(env: Env<T>, n: nat): Option<Seat<T>> {
    if n == 0 then Some(Entry(env))
    else match At(env, n - 1)
      case None => None
      case Some(s) =>
        if s.Finished().Some? then None
        else match Step(env, s)
          case Ok(moved) => Some(moved.0)
          case Err(_) => None
  }

  ghost predicate Below(a: Option<nat>, b: Option<nat>) {
    b.Some? && (a.None? || a.value < b.value)
  }

  /** What every seat on the path satisfies: all records it consumed lie before
      the cursor and the current seq is one of theirs. */
  ghost predicate SeatOk<T(!new)>(env: Env<T>, s: Seat<T>) {
    && s.Finished() != Some(StillRunning)
    && (s.Seq().Some? ==> exists k :: 0 <= k < s.Cursor() && k < |env.records| && env.records[k].seqNo == s.Seq().value)
    && (s.Multi? <==> env.Multithreaded())
  }

  /** A turn keeps the seq or moves it up. */
  ghost predicate Moves<T(!new)>(env: Env<T>, s: Seat<T>, n: Seat<T>) {
    SeatOk(env, n) && (n.Seq() == s.Seq() || Below(s.Seq(), n.Seq()))
  }

  lemma SeqGrows<T(!new)>(env: Env<T>, s: Seat<T>, at: nat)
    requires env.Valid() && SeatOk(env, s) && s.Cursor() <= at < |env.records|
    ensures Below(s.Seq(), Some(env.records[at].seqNo))
  {
    if s.Seq().Some? {
      var k :| 0 <= k < s.Cursor() && k < |env.records| && env.records[k].seqNo == s.Seq().value;
      assert env.records[k].seqNo < env.records[at].seqNo;
    }
  }

  /** A syscall stop always consumes a record. */
  lemma SyscallStopMoves<T(!new)>(env: Env<T>, s: Seat<T>)
    requires env.Valid() && SeatOk(env, s) && s.Single? && s.finished.None?
    requires Step(env, s).Ok? && Step(env, s).value.1
    ensures var n := Step(env, s).value.0;
            SeatOk(env, n) && Below(s.Seq(), n.Seq()) && n.Single? && n.resumeSignal.None? && n.finished.None?
  {
    var n := Step(env, s).value.0;
    var at := SkipCheckpoints(env.records, s.cursor);
    SeqGrows(env, s, at);
    assert env.records[at].seqNo == n.Seq().value && at < n.Cursor();
  }

  lemma SeatOkCarries<T(!new)>(env: Env<T>, s: Seat<T>, n: Seat<T>)
    requires SeatOk(env, s) && n.Seq() == s.Seq() && s.Cursor() <= n.Cursor()
    requires n.Finished() != Some(StillRunning) && n.Multi? == s.Multi?
    ensures SeatOk(env, n)
  {
  }

  lemma StepMoves<T(!new)>(env: Env<T>, s: Seat<T>)
    requires env.Valid() && SeatOk(env, s) && s.Finished().None? && Step(env, s).Ok?
    ensures Moves(env, s, Step(env, s).value.0)
  {
    var n := Step(env, s).value.0;
    if s.Multi? {
      StepMultiMoves(env, s);
    } else if Step(env, s).value.1 {
      SyscallStopMoves(env, s);
    } else {
      var at := SkipCheckpoints(env.records, s.cursor);
      if n.Seq() == s.Seq() {
        SeatOkCarries(env, s, n);
      } else {
        SeqGrows(env, s, at);
        assert env.records[at].seqNo == n.Seq().value && at < n.Cursor();
      }
    }
  }

  lemma StepMultiMoves<T(!new)>(env: Env<T>, s: Seat<T>)
    requires env.Valid() && SeatOk(env, s) && s.Multi? && s.Finished().None? && Step(env, s).Ok?
    ensures Moves(env, s, Step(env, s).value.0)
  {
    var n := Step(env, s).value.0;
    var r := env.records[s.rep.cursor];
    ConsumeFinish(s.rep, r, n.rep);
    hide Consume;
    if r.event.body.Checkpoint? {
      SeatOkCarries(env, s, n);
    } else {
      SeqGrows(env, s, s.rep.cursor);
      assert env.records[s.rep.cursor].seqNo == n.Seq().value && s.rep.cursor < n.Cursor();
    }
  }

  lemma ConsumeFinish(p: Rep, r: Record, n: Rep)
    requires Consume(p, r) == Ok(n) && p.finished.None?
    ensures n.finished != Some(StillRunning)
  {
    hide OnSyscallEnter, OnSyscallExit, OnThreadSpawn, OnThreadExit, OnSignal;
  }

  lemma {:induction false} PathOk<T(!new)>(env: Env<T>, n: nat)
    requires env.Valid() && At(env, n).Some?
    ensures SeatOk(env, At(env, n).value)
  {
    hide Step, SeatOk;
    if n == 0 {
      EntryOk(env);
    } else {
      PathOk(env, n - 1);
      StepMoves(env, At(env, n - 1).value);
    }
  }

  lemma EntryOk<T(!new)>(env: Env<T>)
    ensures SeatOk(env, Entry(env))
  {
  }

  /** Along the path the seq never falls. */
  lemma {:induction false} PathRises<T(!new)>(env: Env<T>, k: nat, n: nat)
    requires env.Valid() && k <= n && At(env, n).Some?
    ensures At(env, k).Some?
    ensures At(env, k).value.Seq() == At(env, n).value.Seq() || Below(At(env, k).value.Seq(), At(env, n).value.Seq())
    decreases n - k
  {
    hide Step, SeatOk;
    if k < n {
      PathRises(env, k, n - 1);
      PathOk(env, n - 1);
      StepMoves(env, At(env, n - 1).value);
    }
  }

  // ---- Where a session may rest ---------------------------------------------------

  /** `s` is the seat after `n` turns, and the first one with its seq. */
  ghost predicate SettledAt<T(!new)>(env: Env<T>, s: Seat<T>, n: nat) {
    && At(env, n) == Some(s)
    && (n == 0 || s.Finished().Some? || Below(At(env, n - 1).value.Seq(), s.Seq()))
  }

  ghost predicate SnapshotOk<T(!new)>(env: Env<T>, cp: Snapshot<T>, n: nat) {
    SettledAt(env, SnapshotSeat(cp), n) && cp.currentSeq == Some(cp.seqNo)
  }

  ghost predicate SnapshotOnPath<T(!new)>(env: Env<T>, cp: Snapshot<T>) {
    exists n :: SnapshotOk(env, cp, n)
  }

  ghost predicate SnapshotsOk<T(!new)>(env: Env<T>, cps: seq<Snapshot<T>>) {
    forall i :: 0 <= i < |cps| ==> SnapshotOnPath(env, cps[i])
  }

  /** The session sits on the path, and so does every checkpoint. */
  ghost predicate SessionOk<T(!new)>(env: Env<T>, st: State<T>) {
    (exists n :: SettledAt(env, st.seat, n)) && SnapshotsOk(env, st.checkpoints)
  }

  lemma PathNext<T(!new)>(env: Env<T>, s: Seat<T>, n: nat)
    requires At(env, n) == Some(s) && s.Finished().None? && Step(env, s).Ok?
    ensures At(env, n + 1) == Some(Step(env, s).value.0)
  {
  }

  lemma SnapshotAdded<T(!new)>(env: Env<T>, cps: seq<Snapshot<T>>, cp: Snapshot<T>, n: nat)
    requires SnapshotsOk(env, cps) && SnapshotOk(env, cp, n)
    ensures SnapshotsOk(env, cps + [cp])
  {
    assert SnapshotOnPath(env, cp);
  }

  /** A checkpoint is only taken of a seat that is first with its seq and has
      nothing pending, so restoring it gives that very seat back. */
  lemma CheckpointTaken<T(!new)>(env: Env<T>, st: State<T>, n: nat)
    requires env.Valid() && At(env, n) == Some(st.seat) && st.seat.Finished().None?
    requires Step(env, st.seat).Ok? && Step(env, st.seat).value.1
    requires SnapshotsOk(env, st.checkpoints)
    ensures var next := MaybeCheckpoint(env, st.(seat := Step(env, st.seat).value.0));
            next.seat == Step(env, st.seat).value.0 && SnapshotsOk(env, next.checkpoints)
  {
    hide Step, SnapshotsOk, At, SeatOk;
    var moved := st.(seat := Step(env, st.seat).value.0);
    PathOk(env, n);
    PathNext(env, st.seat, n);
    var next := MaybeCheckpoint(env, moved);
    if next != moved {
      SingleStop(env, st.seat);
      SyscallStopMoves(env, st.seat);
      var cp := next.checkpoints[|st.checkpoints|];
      assert SnapshotSeat(cp) == moved.seat;
      SnapshotAdded(env, st.checkpoints, cp, n + 1);
    }
  }

  lemma SingleStop<T(!new)>(env: Env<T>, s: Seat<T>)
    requires Step(env, s).Ok? && Step(env, s).value.1
    ensures s.Single?
  {
  }

  // ---- Driving along the path ------------------------------------------------------

  /** Driving without checkpoints: what a fresh session does. */
  ghost function DriveSeat<T(!new)>(env: Env<T>, s: Seat<T>, stopAt: Option<nat>, fuel: nat)
      : Driven<(Seat<T>, ExitOutcome)>
    decreases fuel
  {
    if s.Finished().Some? then Ok((s, s.Finished().value))
    else if Arrived(s, stopAt) then Ok((s, StillRunning))
    else if fuel == 0 then Err(OutOfFuel)
    else match Step(env, s)
      case Err(e) => Err(Failed(e))
      case Ok(moved) => DriveSeat(env, moved.0, stopAt, fuel - 1)
  }

  /** From the seat after `n` turns a drive went to the one after `m` turns, which
      is the first that has arrived, unless the tracee finished before. */
  ghost predicate Drove<T(!new)>(env: Env<T>, st: State<T>, n: nat, stopAt: Option<nat>,
                                 end: State<T>, outcome: ExitOutcome, m: nat) {
    && n <= m && At(env, m) == Some(end.seat) && SnapshotsOk(env, end.checkpoints)
    && end.interval == st.interval && (m == n ==> end == st)
    && (forall k :: n <= k < m ==> At(env, k).Some? && !Arrived(At(env, k).value, stopAt))
    && (outcome == StillRunning <==> end.seat.Finished().None?)
    && (outcome == StillRunning ==> Arrived(end.seat, stopAt))
  }

  lemma {:induction false} DriveFrom<T(!new)>(env: Env<T>, st: State<T>, n: nat, stopAt: Option<nat>, fuel: nat)
      returns (m: nat)
    requires env.Valid() && At(env, n) == Some(st.seat) && SnapshotsOk(env, st.checkpoints)
    requires DriveSession(env, st, stopAt, fuel).Ok?
    ensures var r := DriveSession(env, st, stopAt, fuel).value; Drove(env, st, n, stopAt, r.0, r.1, m)
    decreases fuel
  {
    hide Step, SnapshotsOk, At, MaybeCheckpoint, SeatOk, Arrived;
    m := n;
    PathOk(env, n);
    NeverStillRunning(env, st.seat);
    if st.seat.Finished().None? && !Arrived(st.seat, stopAt) {
      var (seat, syscallStop) := Step(env, st.seat).value;
      PathNext(env, st.seat, n);
      var next := st.(seat := seat);
      if syscallStop {
        CheckpointTaken(env, st, n);
        next := MaybeCheckpoint(env, next);
        CheckpointKeepsInterval(env, st.(seat := seat));
      }
      m := DriveFrom(env, next, n + 1, stopAt, fuel - 1);
    }
  }

  lemma NeverStillRunning<T(!new)>(env: Env<T>, s: Seat<T>)
    requires SeatOk(env, s)
    ensures s.Finished() != Some(StillRunning)
  {
  }

  lemma CheckpointKeepsInterval<T(!new)>(env: Env<T>, st: State<T>)
    ensures MaybeCheckpoint(env, st).interval == st.interval
  {
  }

  // ---- Every call keeps the session on the path ----------------------------------------

  lemma SettledAfterDrive<T(!new)>(env: Env<T>, st: State<T>, n: nat, stopAt: Option<nat>,
                                   end: State<T>, outcome: ExitOutcome, m: nat)
    requires env.Valid() && SettledAt(env, st.seat, n) && Drove(env, st, n, stopAt, end, outcome, m)
    ensures SettledAt(env, end.seat, m)
  {
    hide Step, SnapshotsOk, SeatOk;
    if n < m && end.seat.Finished().None? {
      PathRises(env, m - 1, m);
      assert !Arrived(At(env, m - 1).value, stopAt);
    }
  }

  lemma RestoreOk<T(!new)>(env: Env<T>, st: State<T>, target: nat)
    requires SnapshotsOk(env, st.checkpoints)
    ensures SessionOk(env, RestoreTo(env, st, target))
    ensures RestoreTo(env, st, target) == st.(seat := RestoreTo(env, st, target).seat)
    ensures var s := RestoreTo(env, st, target).seat;
            s.Finished().None? && (s.Seq().None? || s.Seq().value <= target)
  {
    match PlanStart(st, target)
    case None => assert SettledAt(env, Entry(env), 0);
    case Some(i) =>
      assert SnapshotOnPath(env, st.checkpoints[i]);
      var n :| SnapshotOk(env, st.checkpoints[i], n);
      assert SettledAt(env, RestoreTo(env, st, target).seat, n);
  }

  lemma DriveKeepsOk<T(!new)>(env: Env<T>, st: State<T>, stopAt: Option<nat>, fuel: nat)
    requires env.Valid() && SessionOk(env, st) && DriveSession(env, st, stopAt, fuel).Ok?
    ensures SessionOk(env, DriveSession(env, st, stopAt, fuel).value.0)
  {
    hide SnapshotsOk, Step, DriveSession, SettledAt;
    var n :| SettledAt(env, st.seat, n);
    SettledIsOn(env, st.seat, n);
    var m := DriveFrom(env, st, n, stopAt, fuel);
    var r := DriveSession(env, st, stopAt, fuel).value;
    SettledAfterDrive(env, st, n, stopAt, r.0, r.1, m);
  }

  lemma SettledIsOn<T(!new)>(env: Env<T>, s: Seat<T>, n: nat)
    requires SettledAt(env, s, n)
    ensures At(env, n) == Some(s)
  {
  }

  lemma ApplyKeepsOk<T(!new)>(env: Env<T>, st: State<T>, c: Command)
    requires env.Valid() && SessionOk(env, st) && Apply(env, st, c).Ok?
    ensures SessionOk(env, Apply(env, st, c).value)
  {
    hide DriveSession, RestoreTo, SnapshotsOk, SettledAt;
    match c
    case DoRunTo(target, fuel) =>
      RestoreOk(env, st, target);
      DriveKeepsOk(env, RunStart(env, st, target), Some(target), fuel);
    case DoStepTo(target, fuel) => DriveKeepsOk(env, st, Some(target), fuel);
    case DoRunToEnd(fuel) => DriveKeepsOk(env, st, None, fuel);
    case DoRestoreTo(target) => RestoreOk(env, st, target);
    case DoSetInterval(_) =>
  }

  /** After any error-free history the session and its checkpoints are on the path. */
  lemma {:induction false} HistoryOk<T(!new)>(env: Env<T>, st: State<T>, cs: seq<Command>)
    requires env.Valid() && SessionOk(env, st) && ApplyAll(env, st, cs).Ok?
    ensures SessionOk(env, ApplyAll(env, st, cs).value)
    decreases |cs|
  {
    hide Apply, SessionOk;
    if cs != [] {
      ApplyKeepsOk(env, st, cs[0]);
      HistoryOk(env, Apply(env, st, cs[0]).value, cs[1..]);
    }
  }

  lemma LaunchedOk<T(!new)>(env: Env<T>)
    ensures SessionOk(env, Launched(env))
  {
    assert SettledAt(env, Entry(env), 0);
  }

  // ---- The transparency theorem -------------------------------------------------------

  /** A fresh session reaches the seat after `m` turns if nothing before it has arrived. */
  lemma {:induction false} FreshReaches<T(!new)>(env: Env<T>, k: nat, m: nat, target: nat)
    requires k <= m && At(env, m).Some? && At(env, k).Some? && At(env, m).value.Finished().None?
    requires Arrived(At(env, m).value, Some(target))
    requires forall i :: k <= i < m ==> At(env, i).Some? && !Arrived(At(env, i).value, Some(target))
    ensures DriveSeat(env, At(env, k).value, Some(target), m - k) == Ok((At(env, m).value, StillRunning))
    decreases m - k
  {
    hide Step, Arrived;
    if k < m {
      var s := At(env, k).value;
      assert s.Finished().None? && Step(env, s).Ok? by { NotLast(env, k, m); }
      PathNext(env, s, k);
      FreshReaches(env, k + 1, m, target);
    }
  }

  lemma NotLast<T(!new)>(env: Env<T>, k: nat, m: nat)
    requires k < m && At(env, m).Some? && At(env, k).Some?
    ensures At(env, k).value.Finished().None? && Step(env, At(env, k).value).Ok?
    decreases m
  {
    hide Step;
    if k < m - 1 {
      NotLast(env, k, m - 1);
    }
  }

  lemma {:induction false} NothingBefore<T(!new)>(env: Env<T>, s: Seat<T>, n: nat, target: nat)
    requires env.Valid() && SettledAt(env, s, n) && s.Finished().None?
    requires s.Seq().None? || s.Seq().value <= target
    ensures forall k :: 0 <= k < n ==> At(env, k).Some? && !Arrived(At(env, k).value, Some(target))
  {
    hide Step, SeatOk;
    forall k | 0 <= k < n ensures At(env, k).Some? && !Arrived(At(env, k).value, Some(target)) {
      PathRises(env, k, n - 1);
    }
  }

  /** Checkpoint transparency: after any error-free history of calls, a `run_to`
      that stops at its target leaves the session in exactly the seat (tracee,
      cursor, current seq, pending syscall, waiting signal, registers) that a fresh
      session reaches when driven straight to that target. */
  lemma CheckpointsAreTransparent<T(!new)>(env: Env<T>, cs: seq<Command>, st: State<T>, target: nat, fuel: nat,
                                           end: State<T>) returns (straight: nat)
    requires env.Valid() && ApplyAll(env, Launched(env), cs) == Ok(st)
    requires RunTo(env, st, target, fuel) == Ok((end, StillRunning))
    ensures DriveSeat(env, Entry(env), Some(target), straight) == Ok((end.seat, StillRunning))
  {
    LaunchedOk(env);
    HistoryOk(env, Launched(env), cs);
    straight := TransparentFrom(env, st, target, fuel, end);
  }

  lemma TransparentFrom<T(!new)>(env: Env<T>, st: State<T>, target: nat, fuel: nat, end: State<T>) returns (m: nat)
    requires env.Valid() && SessionOk(env, st) && RunTo(env, st, target, fuel) == Ok((end, StillRunning))
    ensures DriveSeat(env, Entry(env), Some(target), m) == Ok((end.seat, StillRunning))
  {
    hide SnapshotsOk, Step, DriveSession, SettledAt, RestoreTo, At;
    RestoreOk(env, st, target);
    var start := RunStart(env, st, target);
    var n :| SettledAt(env, start.seat, n);
    SettledIsOn(env, start.seat, n);
    m := DriveFrom(env, start, n, Some(target), fuel);
    if start.seat.Finished().Some? {
      FinishedStays(env, start, target, fuel);
    }
    NothingBefore(env, start.seat, n, target);
    AtEntry(env);
    FreshReaches(env, 0, m, target);
  }

  lemma AtEntry<T(!new)>(env: Env<T>)
    ensures At(env, 0) == Some(Entry(env))
  {
  }

  lemma FinishedStays<T(!new)>(env: Env<T>, st: State<T>, target: nat, fuel: nat)
    requires st.seat.Finished().Some?
    ensures DriveSession(env, st, Some(target), fuel) == Ok((st, st.seat.Finished().value))
  {
  }
}
