/** Sessions after a failed call: when what they report is still what a fresh replay would. */
module Derailment {
  import opened Common
  import opened MtReplay
  import opened CheckpointSelect
  import opened Session
  import opened Transparency

  // ---- The wall -----------------------------------------------------------------------

  /** The fresh replay fails after `k` turns. */
  ghost predicate FailsAt<T(!new)>(env: Env<T>, k: nat) {
    At(env, k).Some? && At(env, k).value.Finished().None? && Step(env, At(env, k).value).Err?
  }

  /** The seq the fresh replay has reached when it fails. */
  ghost function WallSeq<T(!new)>(env: Env<T>, k: nat): Option<nat>
    requires FailsAt(env, k)
  {
    At(env, k).value.Seq()
  }

  lemma {:induction false} NoPathPast<T(!new)>(env: Env<T>, k: nat, j: nat)
    requires FailsAt(env, k) && At(env, j).Some?
    ensures j <= k
    decreases j
  {
    hide Step;
    if j > k {
      NotLast(env, k, j);
    }
  }

  ghost predicate UpTo(a: Option<nat>, b: Option<nat>) {
    a.None? || (b.Some? && a.value <= b.value)
  }

  /** Nowhere on the path is the seq above the wall's. */
  lemma PathBelowWall<T(!new)>(env: Env<T>, k: nat, j: nat)
    requires env.Valid() && FailsAt(env, k) && At(env, j).Some?
    ensures UpTo(At(env, j).value.Seq(), WallSeq(env, k))
  {
    hide Step, SeatOk;
    NoPathPast(env, k, j);
    PathRises(env, j, k);
  }

  // ---- What a session can look like after failures ----------------------------------------

  ghost predicate Seated<T(!new)>(env: Env<T>, s: Seat<T>) {
    exists n :: SettledAt(env, s, n)
  }

  ghost predicate AtWall<T(!new)>(env: Env<T>, reached: Option<nat>, k: nat) {
    FailsAt(env, k) && UpTo(WallSeq(env, k), reached)
  }

  /** The replay failed at or before this seat's seq. */
  ghost predicate Derailed<T(!new)>(env: Env<T>, s: Seat<T>) {
    SeatOk(env, s) && exists k :: AtWall(env, s.Seq(), k)
  }

  ghost predicate PastWall<T(!new)>(env: Env<T>, seqNo: nat, k: nat) {
    FailsAt(env, k) && Below(WallSeq(env, k), Some(seqNo))
  }

  /** A checkpoint taken after a failure: it lies past the wall. */
  ghost predicate Stray<T(!new)>(env: Env<T>, cp: Snapshot<T>) {
    cp.currentSeq == Some(cp.seqNo) && SeatOk(env, SnapshotSeat(cp)) && exists k :: PastWall(env, cp.seqNo, k)
  }

  ghost predicate Accounted<T(!new)>(env: Env<T>, cps: seq<Snapshot<T>>) {
    forall i :: 0 <= i < |cps| ==> SnapshotOnPath(env, cps[i]) || Stray(env, cps[i])
  }

  /** Every session is where a fresh replay would be, or past its wall; so is every checkpoint. */
  ghost predicate Standing<T(!new)>(env: Env<T>, st: State<T>) {
    (Seated(env, st.seat) || Derailed(env, st.seat)) && Accounted(env, st.checkpoints)
  }

  lemma OkIsStanding<T(!new)>(env: Env<T>, st: State<T>)
    requires SessionOk(env, st)
    ensures Standing(env, st) && Seated(env, st.seat)
  {
  }

  lemma AccountedPush<T(!new)>(env: Env<T>, cps: seq<Snapshot<T>>, cp: Snapshot<T>)
    requires Accounted(env, cps) && (SnapshotOnPath(env, cp) || Stray(env, cp))
    ensures Accounted(env, cps + [cp])
  {
  }

  /** A turn on the path may add a checkpoint, and then it is on the path. */
  lemma TakenOnPath<T(!new)>(env: Env<T>, st: State<T>, n: nat)
    requires env.Valid() && At(env, n) == Some(st.seat) && st.seat.Finished().None? && Accounted(env, st.checkpoints)
    requires Step(env, st.seat).Ok? && Step(env, st.seat).value.1
    ensures var next := MaybeCheckpoint(env, st.(seat := Step(env, st.seat).value.0));
            next.seat == Step(env, st.seat).value.0 && Accounted(env, next.checkpoints)
  {
    hide Step, Accounted, At, SeatOk;
    var moved := st.(seat := Step(env, st.seat).value.0);
    PathOk(env, n);
    PathNext(env, st.seat, n);
    var next := MaybeCheckpoint(env, moved);
    if next != moved {
      SingleStop(env, st.seat);
      SyscallStopMoves(env, st.seat);
      var cp := next.checkpoints[|st.checkpoints|];
      assert SnapshotOk(env, cp, n + 1);
      AccountedPush(env, st.checkpoints, cp);
    }
  }

  /** One taken past the wall is stray. */
  lemma TakenPastWall<T(!new)>(env: Env<T>, st: State<T>)
    requires env.Valid() && Derailed(env, st.seat) && st.seat.Finished().None? && Accounted(env, st.checkpoints)
    requires Step(env, st.seat).Ok? && Step(env, st.seat).value.1
    ensures var next := MaybeCheckpoint(env, st.(seat := Step(env, st.seat).value.0));
            next.seat == Step(env, st.seat).value.0 && Accounted(env, next.checkpoints)
  {
    hide Step, Accounted, At, FailsAt, SeatOk;
    var moved := st.(seat := Step(env, st.seat).value.0);
    var next := MaybeCheckpoint(env, moved);
    if next != moved {
      SingleStop(env, st.seat);
      SyscallStopMoves(env, st.seat);
      var cp := next.checkpoints[|st.checkpoints|];
      assert SnapshotSeat(cp) == moved.seat;
      var k :| AtWall(env, st.seat.Seq(), k);
      assert PastWall(env, cp.seqNo, k);
      AccountedPush(env, st.checkpoints, cp);
    }
  }

  lemma DerailedStep<T(!new)>(env: Env<T>, s: Seat<T>)
    requires env.Valid() && Derailed(env, s) && s.Finished().None?
    ensures Derailed(env, if Step(env, s).Ok? then Step(env, s).value.0 else StepLeaves(env, s))
  {
    hide Step, StepLeaves, FailsAt, SeatOk;
    var k :| AtWall(env, s.Seq(), k);
    if Step(env, s).Ok? {
      StepMoves(env, s);
      assert AtWall(env, Step(env, s).value.0.Seq(), k);
    } else {
      LeavesOk(env, s);
      assert AtWall(env, StepLeaves(env, s).Seq(), k);
    }
  }

  lemma LeavesOk<T(!new)>(env: Env<T>, s: Seat<T>)
    requires SeatOk(env, s)
    ensures SeatOk(env, StepLeaves(env, s)) && StepLeaves(env, s).Seq() == s.Seq()
  {
    hide StepLeaves;
    SeatOkCarries(env, s, StepLeaves(env, s));
  }

  lemma {:induction false} DerailedDrive<T(!new)>(env: Env<T>, st: State<T>, stopAt: Option<nat>, fuel: nat)
    requires env.Valid() && Derailed(env, st.seat) && Accounted(env, st.checkpoints)
    ensures var end := DriveEnds(env, st, stopAt, fuel); Derailed(env, end.seat) && Accounted(env, end.checkpoints)
    decreases fuel
  {
    hide Step, StepLeaves, Derailed, Accounted, MaybeCheckpoint, Arrived;
    if !(st.seat.Finished().Some? || Arrived(st.seat, stopAt) || fuel == 0) {
      DerailedStep(env, st.seat);
      if Step(env, st.seat).Ok? {
        var next := st.(seat := Step(env, st.seat).value.0);
        if Step(env, st.seat).value.1 {
          TakenPastWall(env, st);
          next := MaybeCheckpoint(env, next);
        }
        DerailedDrive(env, next, stopAt, fuel - 1);
      }
    }
  }

  /** A drive along the path from the seat after `n` turns: it went to the one after
      `m` turns, the first that has arrived, or failed there. */
  ghost predicate WentTo<T(!new)>(env: Env<T>, n: nat, stopAt: Option<nat>, d: Driven<(State<T>, ExitOutcome)>,
                                  end: State<T>, m: nat) {
    && n <= m && At(env, m).Some? && Accounted(env, end.checkpoints)
    && (forall k :: n <= k < m ==> At(env, k).Some? && !Arrived(At(env, k).value, stopAt))
    && (d.Ok? ==> d.value.0 == end && At(env, m) == Some(end.seat)
                  && (d.value.1 == StillRunning <==> end.seat.Finished().None?)
                  && (d.value.1 == StillRunning ==> Arrived(end.seat, stopAt)))
    && (d.Err? && d.error.Failed? ==> FailsAt(env, m) && end.seat == StepLeaves(env, At(env, m).value))
  }

  lemma {:induction false} DriveAlong<T(!new)>(env: Env<T>, st: State<T>, n: nat, stopAt: Option<nat>, fuel: nat)
      returns (m: nat)
    requires env.Valid() && At(env, n) == Some(st.seat) && Accounted(env, st.checkpoints)
    ensures WentTo(env, n, stopAt, DriveSession(env, st, stopAt, fuel), DriveEnds(env, st, stopAt, fuel), m)
    decreases fuel
  {
    hide Step, StepLeaves, Accounted, At, MaybeCheckpoint, SeatOk, Arrived;
    m := n;
    PathOk(env, n);
    NeverStillRunning(env, st.seat);
    if st.seat.Finished().None? && !Arrived(st.seat, stopAt) && fuel > 0 && Step(env, st.seat).Ok? {
      var (seat, syscallStop) := Step(env, st.seat).value;
      PathNext(env, st.seat, n);
      var next := st.(seat := seat);
      if syscallStop {
        TakenOnPath(env, st, n);
        next := MaybeCheckpoint(env, next);
      }
      m := DriveAlong(env, next, n + 1, stopAt, fuel - 1);
    }
  }

  // ---- Every call keeps the session standing ------------------------------------------------

  lemma SettledThere<T(!new)>(env: Env<T>, s: Seat<T>, n: nat, stopAt: Option<nat>, end: Seat<T>, m: nat)
    requires env.Valid() && SettledAt(env, s, n) && n <= m && At(env, m) == Some(end)
    requires forall k :: n <= k < m ==> At(env, k).Some? && !Arrived(At(env, k).value, stopAt)
    requires end.Finished().Some? || Arrived(end, stopAt)
    ensures Seated(env, end)
  {
    hide Step, SeatOk;
    assert SettledAt(env, end, m) by {
      if n < m && end.Finished().None? {
        PathRises(env, m - 1, m);
        assert !Arrived(At(env, m - 1).value, stopAt);
      }
    }
  }

  /** A call that returned, with an outcome or a failure, leaves the session standing. */
  lemma DriveStands<T(!new)>(env: Env<T>, st: State<T>, stopAt: Option<nat>, fuel: nat)
    requires env.Valid() && Standing(env, st) && DriveSession(env, st, stopAt, fuel) != Err(OutOfFuel)
    ensures Standing(env, DriveEnds(env, st, stopAt, fuel))
  {
    hide Step, StepLeaves, DriveSession, DriveEnds, Accounted, SettledAt, SeatOk, FailsAt;
    if Seated(env, st.seat) {
      var n :| SettledAt(env, st.seat, n);
      SettledIsOn(env, st.seat, n);
      var m := DriveAlong(env, st, n, stopAt, fuel);
      var end := DriveEnds(env, st, stopAt, fuel);
      if DriveSession(env, st, stopAt, fuel).Ok? {
        SettledThere(env, st.seat, n, stopAt, end.seat, m);
      } else {
        WallIsWall(env, m);
        assert AtWall(env, end.seat.Seq(), m);
      }
    } else {
      DerailedDrive(env, st, stopAt, fuel);
    }
  }

  lemma WallIsWall<T(!new)>(env: Env<T>, m: nat)
    requires env.Valid() && FailsAt(env, m)
    ensures var left := StepLeaves(env, At(env, m).value); SeatOk(env, left) && left.Seq() == WallSeq(env, m)
  {
    hide Step, StepLeaves, SeatOk;
    PathOk(env, m);
    LeavesOk(env, At(env, m).value);
  }

  lemma RestoreStands<T(!new)>(env: Env<T>, st: State<T>, target: nat)
    requires Accounted(env, st.checkpoints)
    ensures var re := RestoreTo(env, st, target);
            && Standing(env, re) && re.checkpoints == st.checkpoints && re.seat.Finished().None?
            && (re.seat.Seq().None? || re.seat.Seq().value <= target)
            && (Seated(env, re.seat) || exists k :: PastWall(env, target, k))
  {
    match PlanStart(st, target)
    case None => assert SettledAt(env, Entry(env), 0);
    case Some(i) =>
      var cp := st.checkpoints[i];
      if SnapshotOnPath(env, cp) {
        var n :| SnapshotOk(env, cp, n);
        assert SettledAt(env, RestoreTo(env, st, target).seat, n);
      } else {
        var k :| PastWall(env, cp.seqNo, k);
        assert AtWall(env, Some(cp.seqNo), k) && PastWall(env, target, k);
      }
  }

  lemma RunStartStands<T(!new)>(env: Env<T>, st: State<T>, target: nat)
    requires Standing(env, st)
    ensures var start := RunStart(env, st, target);
            && Standing(env, start) && (start.seat.Seq().None? || start.seat.Seq().value <= target)
  {
    hide Standing;
    StandingParts(env, st);
    RestoreStands(env, st, target);
  }

  lemma StandingParts<T(!new)>(env: Env<T>, st: State<T>)
    requires Standing(env, st)
    ensures Accounted(env, st.checkpoints) && (Seated(env, st.seat) || Derailed(env, st.seat))
  {
  }

  // ---- When a reported stop is a fresh replay's -----------------------------------------------

  /** A fresh replay driven to `target` stops in this seat. */
  ghost predicate FreshAt<T(!new)>(env: Env<T>, target: nat, fuel: nat, s: Seat<T>) {
    DriveSeat(env, Entry(env), Some(target), fuel) == Ok((s, StillRunning))
  }

  ghost predicate Fresh<T(!new)>(env: Env<T>, target: nat, s: Seat<T>) {
    exists fuel :: FreshAt(env, target, fuel, s)
  }

  lemma {:induction false} FreshIsOnPath<T(!new)>(env: Env<T>, s: Seat<T>, n: nat, target: nat, fuel: nat, end: Seat<T>)
      returns (m: nat)
    requires env.Valid() && At(env, n) == Some(s) && DriveSeat(env, s, Some(target), fuel) == Ok((end, StillRunning))
    ensures n <= m && At(env, m) == Some(end) && end.Finished().None? && Arrived(end, Some(target))
    ensures forall k :: n <= k < m ==> At(env, k).Some? && !Arrived(At(env, k).value, Some(target))
    decreases fuel
  {
    hide Step, At, Arrived, SeatOk;
    m := n;
    PathOk(env, n);
    NeverStillRunning(env, s);
    if s.Finished().None? && !Arrived(s, Some(target)) {
      PathNext(env, s, n);
      m := FreshIsOnPath(env, Step(env, s).value.0, n + 1, target, fuel - 1, end);
    }
  }

  /** Where a fresh replay stops is a seat of the path, the first with its seq, and not past the wall. */
  lemma FreshIsSeated<T(!new)>(env: Env<T>, target: nat, s: Seat<T>)
    requires env.Valid() && Fresh(env, target, s)
    ensures Seated(env, s) && s.Seq().Some? && s.Seq().value >= target
    ensures forall k :: FailsAt(env, k) ==> UpTo(s.Seq(), WallSeq(env, k))
  {
    hide Step, DriveSeat, FailsAt;
    var fuel :| FreshAt(env, target, fuel, s);
    AtEntry(env);
    hide At;
    var m := FreshIsOnPath(env, Entry(env), 0, target, fuel, s);
    EntrySettled(env);
    SettledThere(env, Entry(env), 0, Some(target), s, m);
    forall k | FailsAt(env, k) ensures UpTo(s.Seq(), WallSeq(env, k)) {
      PathBelowWall(env, k, m);
    }
  }

  lemma EntrySettled<T(!new)>(env: Env<T>)
    ensures SettledAt(env, Entry(env), 0)
  {
  }

  /** Exactly the runs that start from a seat of the path stop where a fresh replay does. */
  lemma StopIsFresh<T(!new)>(env: Env<T>, st: State<T>, target: nat, fuel: nat, end: State<T>)
    requires env.Valid() && Standing(env, st) && RunTo(env, st, target, fuel) == Ok((end, StillRunning))
    ensures Fresh(env, target, end.seat) <==> Seated(env, RunStart(env, st, target).seat)
  {
    hide Step, DriveSession, Standing, Seated, RunStart, DriveSeat, Derailed, At;
    var start := RunStart(env, st, target);
    RunStartStands(env, st, target);
    StandingParts(env, start);
    if Seated(env, start.seat) {
      SeatedStop(env, start, target, fuel, end);
    } else {
      DerailedStop(env, start, target, fuel, end);
    }
  }

  lemma SeatedStop<T(!new)>(env: Env<T>, start: State<T>, target: nat, fuel: nat, end: State<T>)
    requires env.Valid() && Seated(env, start.seat) && Accounted(env, start.checkpoints)
    requires start.seat.Seq().None? || start.seat.Seq().value <= target
    requires DriveSession(env, start, Some(target), fuel) == Ok((end, StillRunning))
    ensures Fresh(env, target, end.seat)
  {
    hide Step, DriveSession, DriveEnds, SettledAt, At, Accounted, DriveSeat;
    var n :| SettledAt(env, start.seat, n);
    SettledIsOn(env, start.seat, n);
    var m := DriveAlong(env, start, n, Some(target), fuel);
    if start.seat.Finished().Some? {
      FinishedStays(env, start, target, fuel);
    }
    NothingBefore(env, start.seat, n, target);
    AtEntry(env);
    FreshReaches(env, 0, m, target);
    assert FreshAt(env, target, m, end.seat);
  }

  lemma DerailedStop<T(!new)>(env: Env<T>, start: State<T>, target: nat, fuel: nat, end: State<T>)
    requires env.Valid() && Derailed(env, start.seat) && !Seated(env, start.seat)
    requires start.seat.Seq().None? || start.seat.Seq().value <= target
    requires DriveSession(env, start, Some(target), fuel) == Ok((end, StillRunning))
    ensures !Fresh(env, target, end.seat)
  {
    hide Step, DriveSeat, Seated, FailsAt, SeatOk;
    if Fresh(env, target, end.seat) {
      FreshIsSeated(env, target, end.seat);
    }
  }

  /** The seq at which the fresh replay fails decides it: stops before it are always a
      fresh replay's, stops after it never, and a stop on it exactly when the run
      restarts or the session is still where a fresh replay stops. */
  lemma WallDecides<T(!new)>(env: Env<T>, st: State<T>, target: nat, fuel: nat, end: State<T>, k: nat)
    requires env.Valid() && Standing(env, st) && FailsAt(env, k)
    requires RunTo(env, st, target, fuel) == Ok((end, StillRunning))
    ensures WallSeq(env, k).Some? && target < WallSeq(env, k).value ==> Fresh(env, target, end.seat)
    ensures Below(WallSeq(env, k), Some(target)) ==> !Fresh(env, target, end.seat)
    ensures WallSeq(env, k) == Some(target) ==>
              (Fresh(env, target, end.seat)
               <==> ShouldRestart(st.seat.Seq(), StartSeq(st, target), target) || Seated(env, st.seat))
  {
    hide Step, DriveSession, Standing, Seated, RestoreTo, StartSeq, FailsAt, Fresh, SeatOk;
    StopIsFresh(env, st, target, fuel, end);
    StandingParts(env, st);
    RunStartStands(env, st, target);
    var start := RunStart(env, st, target);
    StandingParts(env, start);
    RestoreStands(env, st, target);
    forall j | FailsAt(env, j) ensures j == k {
      OneWall(env, j, k);
    }
    if Fresh(env, target, end.seat) {
      FreshIsSeated(env, target, end.seat);
    }
  }

  lemma OneWall<T(!new)>(env: Env<T>, j: nat, k: nat)
    requires FailsAt(env, j) && FailsAt(env, k)
    ensures j == k
  {
    hide Step;
    NoPathPast(env, j, k);
    NoPathPast(env, k, j);
  }

  /** The first call to fail shows where the wall is: the seq it leaves is the wall's. */
  lemma FirstFailureIsTheWall<T(!new)>(env: Env<T>, st: State<T>, stopAt: Option<nat>, fuel: nat) returns (k: nat)
    requires env.Valid() && Seated(env, st.seat) && Accounted(env, st.checkpoints)
    requires DriveSession(env, st, stopAt, fuel).Err? && DriveSession(env, st, stopAt, fuel).error.Failed?
    ensures FailsAt(env, k) && WallSeq(env, k) == DriveEnds(env, st, stopAt, fuel).seat.Seq()
  {
    hide Step, StepLeaves, DriveSession, DriveEnds, SettledAt, Accounted, FailsAt;
    var n :| SettledAt(env, st.seat, n);
    SettledIsOn(env, st.seat, n);
    k := DriveAlong(env, st, n, stopAt, fuel);
    WallIsWall(env, k);
  }
}
