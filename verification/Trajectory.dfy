/** The one trajectory every session moves along, failed calls included. */
module Trajectory {
  import opened Common
  import opened MtReplay
  import opened CheckpointSelect
  import opened Session
  import opened Transparency
  import opened Derailment

  // ---- The path, continued past failures -----------------------------------------------

  /** The seat a turn leaves, whether it succeeds or fails. */
  ghost function Onward<T(!new)>(env: Env<T>, s: Seat<T>): Seat<T> {
    if Step(env, s).Ok? then Step(env, s).value.0 else StepLeaves(env, s)
  }

  /** The seat after `n` turns from entry, unless the tracee has finished before. */
  ghost function Ext<T(!new)>(env: Env<T>, n: nat): Option<Seat<T>> {
    if n == 0 then Some(Entry(env))
    else match Ext(env, n - 1)
      case None => None
      case Some(s) => if s.Finished().Some? then None else Some(Onward(env, s))
  }

  lemma ExtNext<T(!new)>(env: Env<T>, s: Seat<T>, n: nat)
    requires Ext(env, n) == Some(s) && s.Finished().None?
    ensures Ext(env, n + 1) == Some(Onward(env, s))
  {
  }

  lemma OnwardMoves<T(!new)>(env: Env<T>, s: Seat<T>)
    requires env.Valid() && SeatOk(env, s) && s.Finished().None?
    ensures Moves(env, s, Onward(env, s))
  {
    hide Step, StepLeaves, SeatOk;
    if Step(env, s).Ok? {
      StepMoves(env, s);
    } else {
      LeavesOk(env, s);
    }
  }

  lemma {:induction false} ExtOk<T(!new)>(env: Env<T>, n: nat)
    requires env.Valid() && Ext(env, n).Some?
    ensures SeatOk(env, Ext(env, n).value)
  {
    hide Onward, SeatOk;
    if n == 0 {
      EntryOk(env);
    } else {
      ExtOk(env, n - 1);
      OnwardMoves(env, Ext(env, n - 1).value);
    }
  }

  /** Along the trajectory the seq never falls. */
  lemma {:induction false} ExtRises<T(!new)>(env: Env<T>, k: nat, n: nat)
    requires env.Valid() && k <= n && Ext(env, n).Some?
    ensures Ext(env, k).Some?
    ensures var a, b := Ext(env, k).value.Seq(), Ext(env, n).value.Seq(); a == b || Below(a, b)
    decreases n - k
  {
    hide Onward, SeatOk;
    if k < n {
      ExtRises(env, k, n - 1);
      ExtOk(env, n - 1);
      OnwardMoves(env, Ext(env, n - 1).value);
    }
  }

  /** Up to its failure the fresh replay moves along the same trajectory. */
  lemma {:induction false} ExtExtends<T(!new)>(env: Env<T>, n: nat)
    requires At(env, n).Some?
    ensures Ext(env, n) == At(env, n)
  {
    hide Step, StepLeaves;
    if n > 0 {
      ExtExtends(env, n - 1);
    }
  }

  // ---- Seats that are first with their seq ----------------------------------------------

  ghost predicate FirstAt<T(!new)>(env: Env<T>, s: Seat<T>, n: nat) {
    Ext(env, n) == Some(s) && (n == 0 || Below(Ext(env, n - 1).value.Seq(), s.Seq()))
  }

  /** The first seat on the trajectory with its seq. */
  ghost predicate IsFirst<T(!new)>(env: Env<T>, s: Seat<T>) {
    exists n :: FirstAt(env, s, n)
  }

  /** The first seat on the trajectory at or past a target. */
  ghost predicate LandsAt<T(!new)>(env: Env<T>, target: nat, s: Seat<T>, m: nat) {
    && Ext(env, m) == Some(s) && Arrived(s, Some(target))
    && forall k :: 0 <= k < m ==> Ext(env, k).Some? && !Arrived(Ext(env, k).value, Some(target))
  }

  ghost predicate Lands<T(!new)>(env: Env<T>, target: nat, s: Seat<T>) {
    exists m :: LandsAt(env, target, s, m)
  }

  lemma LandsUniquely<T(!new)>(env: Env<T>, target: nat, a: Seat<T>, b: Seat<T>)
    requires Lands(env, target, a) && Lands(env, target, b)
    ensures a == b
  {
    hide Ext, Arrived;
    var m :| LandsAt(env, target, a, m);
    var n :| LandsAt(env, target, b, n);
  }

  /** A seat at or past the target that is first with its seq is the landing, if its seq is the target's. */
  lemma FirstLands<T(!new)>(env: Env<T>, target: nat, s: Seat<T>)
    requires env.Valid() && IsFirst(env, s) && s.Seq() == Some(target)
    ensures Lands(env, target, s)
  {
    hide Onward;
    var n: nat :| FirstAt(env, s, n);
    forall k | 0 <= k < n ensures Ext(env, k).Some? && !Arrived(Ext(env, k).value, Some(target)) {
      ExtRises(env, k, n - 1);
    }
    assert LandsAt(env, target, s, n);
  }

  lemma LandingIsFirst<T(!new)>(env: Env<T>, target: nat, s: Seat<T>)
    requires Lands(env, target, s)
    ensures IsFirst(env, s)
  {
    hide Onward;
    var m :| LandsAt(env, target, s, m);
    assert FirstAt(env, s, m);
  }

  // ---- Sessions stay on the trajectory ------------------------------------------------------

  ghost predicate Kept<T(!new)>(env: Env<T>, cps: seq<Snapshot<T>>) {
    forall i :: 0 <= i < |cps| ==> cps[i].currentSeq == Some(cps[i].seqNo) && IsFirst(env, SnapshotSeat(cps[i]))
  }

  ghost predicate OnExt<T(!new)>(env: Env<T>, s: Seat<T>) {
    exists n :: Ext(env, n) == Some(s)
  }

  /** The session sits on the trajectory; each checkpoint is a first seat of it. */
  ghost predicate Tracked<T(!new)>(env: Env<T>, st: State<T>) {
    OnExt(env, st.seat) && Kept(env, st.checkpoints)
  }

  /** One turn of the drive loop, with the checkpoint it may take. */
  ghost function Turned<T(!new)>(env: Env<T>, st: State<T>): State<T> {
    var moved := st.(seat := Onward(env, st.seat));
    if Step(env, st.seat).Ok? && Step(env, st.seat).value.1 then MaybeCheckpoint(env, moved) else moved
  }

  lemma TurnedSeat<T(!new)>(env: Env<T>, st: State<T>)
    ensures Turned(env, st).seat == Onward(env, st.seat) && Turned(env, st).interval == st.interval
  {
  }

  /** A checkpoint is only taken of a seat whose seq has just risen. */
  lemma TurnKeeps<T(!new)>(env: Env<T>, st: State<T>, n: nat)
    requires env.Valid() && Ext(env, n) == Some(st.seat) && st.seat.Finished().None? && Kept(env, st.checkpoints)
    ensures Ext(env, n + 1) == Some(Turned(env, st).seat) && Kept(env, Turned(env, st).checkpoints)
  {
    hide Step, StepLeaves, Ext, SeatOk;
    TurnedSeat(env, st);
    ExtNext(env, st.seat, n);
    ExtOk(env, n);
    var next := Turned(env, st);
    if next != st.(seat := Onward(env, st.seat)) {
      SingleStop(env, st.seat);
      SyscallStopMoves(env, st.seat);
      var cp := next.checkpoints[|st.checkpoints|];
      assert SnapshotSeat(cp) == next.seat;
      assert FirstAt(env, SnapshotSeat(cp), n + 1);
    }
  }

  /** From the seat after `n` turns, to the one after `m`, the first that has arrived or finished. */
  ghost predicate Walked<T(!new)>(env: Env<T>, n: nat, stopAt: Option<nat>, end: State<T>, m: nat) {
    && n <= m && Ext(env, m) == Some(end.seat) && Kept(env, end.checkpoints)
    && forall k :: n <= k < m ==> Ext(env, k).Some? && !Arrived(Ext(env, k).value, stopAt)
  }

  lemma {:induction false} DriveWalks<T(!new)>(env: Env<T>, st: State<T>, n: nat, stopAt: Option<nat>, fuel: nat)
      returns (m: nat)
    requires env.Valid() && Ext(env, n) == Some(st.seat) && Kept(env, st.checkpoints)
    ensures Walked(env, n, stopAt, DriveEnds(env, st, stopAt, fuel), m)
    decreases fuel
  {
    hide Step, StepLeaves, Ext, Kept, Arrived, MaybeCheckpoint;
    m := n;
    if st.seat.Finished().None? && !Arrived(st.seat, stopAt) && fuel > 0 {
      TurnKeeps(env, st, n);
      if Step(env, st.seat).Ok? {
        m := DriveWalks(env, Turned(env, st), n + 1, stopAt, fuel - 1);
      } else {
        m := n + 1;
      }
    }
  }

  /** A drive that returns leaves what it returns, arrived or finished. */
  lemma {:induction false} EndsAsReturned<T(!new)>(env: Env<T>, st: State<T>, stopAt: Option<nat>, fuel: nat)
    requires DriveSession(env, st, stopAt, fuel).Ok?
    ensures DriveEnds(env, st, stopAt, fuel) == DriveSession(env, st, stopAt, fuel).value.0
    ensures var r := DriveSession(env, st, stopAt, fuel).value;
            r.0.seat.Finished() == Some(r.1) || (Arrived(r.0.seat, stopAt) && r.1 == StillRunning)
    decreases fuel
  {
    hide Step, MaybeCheckpoint, Arrived, StepLeaves;
    if st.seat.Finished().None? && !Arrived(st.seat, stopAt) {
      var (seat, syscallStop) := Step(env, st.seat).value;
      var moved := st.(seat := seat);
      EndsAsReturned(env, if syscallStop then MaybeCheckpoint(env, moved) else moved, stopAt, fuel - 1);
    }
  }

  lemma DriveTracked<T(!new)>(env: Env<T>, st: State<T>, stopAt: Option<nat>, fuel: nat)
    requires env.Valid() && Tracked(env, st)
    ensures Tracked(env, DriveEnds(env, st, stopAt, fuel))
  {
    hide Ext, Kept, DriveEnds;
    var n :| Ext(env, n) == Some(st.seat);
    var m := DriveWalks(env, st, n, stopAt, fuel);
  }

  lemma RestoreTracked<T(!new)>(env: Env<T>, st: State<T>, target: nat)
    requires Tracked(env, st)
    ensures var re := RestoreTo(env, st, target);
            && Tracked(env, re) && IsFirst(env, re.seat) && re == st.(seat := re.seat)
            && re.seat.Finished().None? && (re.seat.Seq().None? || re.seat.Seq().value <= target)
  {
    hide Onward;
    match PlanStart(st, target)
    case None => assert FirstAt(env, Entry(env), 0);
    case Some(i) =>
      var n :| FirstAt(env, SnapshotSeat(st.checkpoints[i]), n);
  }

  lemma EndsTracked<T(!new)>(env: Env<T>, st: State<T>, c: Command)
    requires env.Valid() && Tracked(env, st)
    ensures Tracked(env, Ends(env, st, c))
  {
    hide Tracked, DriveEnds, RestoreTo;
    match c
    case DoRunTo(target, fuel) =>
      RestoreTracked(env, st, target);
      DriveTracked(env, RunStart(env, st, target), Some(target), fuel);
    case DoStepTo(target, fuel) => DriveTracked(env, st, Some(target), fuel);
    case DoRunToEnd(fuel) => DriveTracked(env, st, None, fuel);
    case DoRestoreTo(target) => RestoreTracked(env, st, target);
    case DoSetInterval(interval) => IntervalTracked(env, st, interval);
  }

  lemma IntervalTracked<T(!new)>(env: Env<T>, st: State<T>, interval: nat)
    requires Tracked(env, st)
    ensures Tracked(env, st.(interval := interval))
  {
  }

  lemma LaunchedTracked<T(!new)>(env: Env<T>)
    ensures Tracked(env, Launched(env))
  {
    assert Ext(env, 0) == Some(Entry(env));
  }

  /** Whatever is asked of a session, and whichever calls fail, it stays on the one trajectory. */
  lemma {:induction false} HistoryTracked<T(!new)>(env: Env<T>, st: State<T>, cs: seq<Command>)
    requires env.Valid() && Tracked(env, st)
    ensures Tracked(env, AllEnds(env, st, cs))
    decreases |cs|
  {
    hide Tracked, Ends;
    if cs != [] {
      EndsTracked(env, st, cs[0]);
      HistoryTracked(env, Ends(env, st, cs[0]), cs[1..]);
    }
  }

  // ---- Where a run stops ---------------------------------------------------------------------

  /** The run returns at once: it does not restart and is at its target already. */
  ghost predicate Unmoved<T(!new)>(st: State<T>, target: nat) {
    !ShouldRestart(st.seat.Seq(), StartSeq(st, target), target) && st.seat.Seq() == Some(target)
  }

  /** A run that stops lands on the first seat of the trajectory at or past its target,
      unless it returns at once; then it stays where it is. */
  lemma StopLands<T(!new)>(env: Env<T>, st: State<T>, target: nat, fuel: nat, end: State<T>)
    requires env.Valid() && Tracked(env, st) && RunTo(env, st, target, fuel) == Ok((end, StillRunning))
    ensures end == RunEnds(env, st, target, fuel) && Arrived(end.seat, Some(target))
    ensures if Unmoved(st, target) then end == st else Lands(env, target, end.seat)
  {
    hide Step, DriveSession, DriveEnds, RestoreTo, Ext, StartSeq, SeatOk, Kept;
    var start := RunStart(env, st, target);
    RestoreTracked(env, st, target);
    EndsAsReturned(env, start, Some(target), fuel);
    EndTracked(env, start, target, fuel, end);
    if Unmoved(st, target) {
      StaysPut(env, st, target, fuel);
    } else {
      var n := StartIndex(env, st, target);
      var m := DriveWalks(env, start, n, Some(target), fuel);
      LandsFrom(env, start.seat, n, target, end.seat, m);
    }
  }

  lemma EndTracked<T(!new)>(env: Env<T>, st: State<T>, target: nat, fuel: nat, end: State<T>)
    requires env.Valid() && Tracked(env, st) && DriveSession(env, st, Some(target), fuel) == Ok((end, StillRunning))
    ensures end.seat.Finished() != Some(StillRunning) && Arrived(end.seat, Some(target))
  {
    hide Step, DriveSession, DriveEnds, Ext, SeatOk, Kept;
    EndsAsReturned(env, st, Some(target), fuel);
    DriveTracked(env, st, Some(target), fuel);
    var n :| Ext(env, n) == Some(end.seat);
    ExtOk(env, n);
    NeverStillRunning(env, end.seat);
  }

  /** The index a moving run starts from: of a first seat, or of one below the target. */
  lemma StartIndex<T(!new)>(env: Env<T>, st: State<T>, target: nat) returns (n: nat)
    requires Tracked(env, st) && !Unmoved(st, target)
    ensures var s := RunStart(env, st, target).seat;
            && Ext(env, n) == Some(s) && (s.Seq().None? || s.Seq().value <= target)
            && (FirstAt(env, s, n) || !Arrived(s, Some(target)))
  {
    hide RestoreTo, Ext, StartSeq, Kept;
    if ShouldRestart(st.seat.Seq(), StartSeq(st, target), target) {
      RestoreTracked(env, st, target);
      n :| FirstAt(env, RestoreTo(env, st, target).seat, n);
    } else {
      n :| Ext(env, n) == Some(st.seat);
    }
  }

  lemma StaysPut<T(!new)>(env: Env<T>, st: State<T>, target: nat, fuel: nat)
    requires Unmoved(st, target) && RunTo(env, st, target, fuel).Ok?
    requires RunTo(env, st, target, fuel).value.1 == StillRunning
    ensures RunTo(env, st, target, fuel).value.0 == st
  {
  }

  lemma LandsFrom<T(!new)>(env: Env<T>, s: Seat<T>, n: nat, target: nat, end: Seat<T>, m: nat)
    requires env.Valid() && Ext(env, n) == Some(s) && (s.Seq().None? || s.Seq().value <= target)
    requires FirstAt(env, s, n) || !Arrived(s, Some(target))
    requires n <= m && Ext(env, m) == Some(end) && Arrived(end, Some(target))
    requires forall k :: n <= k < m ==> Ext(env, k).Some? && !Arrived(Ext(env, k).value, Some(target))
    ensures Lands(env, target, end)
  {
    hide Onward;
    forall k | 0 <= k < m ensures Ext(env, k).Some? && !Arrived(Ext(env, k).value, Some(target)) {
      if k < n {
        ExtRises(env, k, n);
        ExtRises(env, k, n - 1);
      }
    }
    assert LandsAt(env, target, end, m);
  }

  /** So a stop is on the first seat with its seq unless the run returned at once from another one. */
  lemma StopIsFirst<T(!new)>(env: Env<T>, st: State<T>, target: nat, fuel: nat, end: State<T>)
    requires env.Valid() && Tracked(env, st) && RunTo(env, st, target, fuel) == Ok((end, StillRunning))
    ensures Lands(env, target, end.seat) <==> IsFirst(env, end.seat)
    ensures IsFirst(env, end.seat) <==> !Unmoved(st, target) || IsFirst(env, st.seat)
  {
    hide RunTo, Tracked, IsFirst, Lands;
    StopLands(env, st, target, fuel, end);
    if IsFirst(env, end.seat) && Unmoved(st, target) {
      FirstLands(env, target, end.seat);
    }
    if Lands(env, target, end.seat) {
      LandingIsFirst(env, target, end.seat);
    }
  }

  /** A fresh replay's stop is the landing. */
  lemma FreshLands<T(!new)>(env: Env<T>, target: nat, s: Seat<T>)
    requires env.Valid() && Fresh(env, target, s)
    ensures Lands(env, target, s)
  {
    hide Step, DriveSeat, StepLeaves;
    var fuel :| FreshAt(env, target, fuel, s);
    AtEntry(env);
    hide At, Ext, Arrived;
    var m := FreshIsOnPath(env, Entry(env), 0, target, fuel, s);
    forall k | 0 <= k <= m ensures Ext(env, k) == At(env, k) {
      if k == m || At(env, k).Some? {
        ExtExtends(env, k);
      }
    }
    assert LandsAt(env, target, s, m);
  }
}
