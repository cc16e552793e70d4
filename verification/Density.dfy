/** With a fixed interval the checkpoints are evenly spread over everything replayed. */
module Density {
  import opened Common
  import opened CheckpointSelect
  import opened Session
  import opened Transparency
  import opened Trajectory

  /** The `n`-th turn of the trajectory ended at a clean syscall-exit boundary with seq `b`. */
  ghost predicate Boundary<T(!new)>(env: Env<T>, n: nat, b: nat) {
    && n > 0 && Ext(env, n).Some?
    && Step(env, Ext(env, n - 1).value).Ok? && Step(env, Ext(env, n - 1).value).value.1
    && Ext(env, n).value.Single? && Ext(env, n).value.pending.None? && Ext(env, n).value.currentSeq == Some(b)
  }

  ghost predicate Covered<T(!new)>(cps: seq<Snapshot<T>>, b: nat, interval: nat) {
    exists i :: 0 <= i < |cps| && b - interval < cps[i].seqNo <= b
  }

  ghost predicate Spaced<T(!new)>(cps: seq<Snapshot<T>>, interval: nat) {
    && (forall i :: 0 <= i < |cps| ==> cps[i].seqNo >= interval)
    && (forall i, j :: 0 <= i < j < |cps| ==> cps[i].seqNo + interval <= cps[j].seqNo)
  }

  ghost predicate TakenBy<T(!new)>(env: Env<T>, cp: Snapshot<T>, far: nat) {
    && cp.currentSeq == Some(cp.seqNo)
    && exists k :: 0 <= k <= far && Ext(env, k) == Some(SnapshotSeat(cp))
  }

  ghost predicate SeqsBounded<T(!new)>(env: Env<T>) {
    forall i :: 0 <= i < |env.records| ==> env.records[i].seqNo < U64_MAX
  }

  /** The session sits after `n` turns and `far` is the farthest it has been. */
  ghost predicate Dense<T(!new)>(env: Env<T>, st: State<T>, n: nat, far: nat) {
    && n <= far && Ext(env, far).Some? && Ext(env, n) == Some(st.seat)
    && Spaced(st.checkpoints, st.interval)
    && (forall i :: 0 <= i < |st.checkpoints| ==> TakenBy(env, st.checkpoints[i], far))
    && (forall k: nat, b: nat :: k <= far && Boundary(env, k, b) && b >= st.interval ==>
          Covered(st.checkpoints, b, st.interval))
  }

  lemma TakenSeq<T(!new)>(env: Env<T>, cp: Snapshot<T>, far: nat)
    requires env.Valid() && TakenBy(env, cp, far) && Ext(env, far).Some?
    ensures var s := Ext(env, far).value.Seq(); s.Some? && cp.seqNo <= s.value
  {
    hide Step;
    var k :| 0 <= k <= far && Ext(env, k) == Some(SnapshotSeat(cp));
    ExtRises(env, k, far);
  }

  lemma BoundedSeq<T(!new)>(env: Env<T>, n: nat)
    requires env.Valid() && SeqsBounded(env) && Ext(env, n).Some? && Ext(env, n).value.Seq().Some?
    ensures Ext(env, n).value.Seq().value < U64_MAX
  {
    hide Ext, Step;
    ExtOk(env, n);
  }

  /** Re-covering old ground takes no checkpoint. */
  lemma NoneDueAgain<T(!new)>(cps: seq<Snapshot<T>>, b: nat, interval: nat)
    requires interval > 0 && b < U64_MAX && Spaced(cps, interval)
    requires b >= interval ==> Covered(cps, b, interval)
    ensures !IsCheckpointDue(if cps == [] then None else Some(cps[|cps| - 1].seqNo), b, interval)
  {
    if b >= interval {
      var i :| 0 <= i < |cps| && b - interval < cps[i].seqNo <= b;
      assert i < |cps| - 1 ==> cps[i].seqNo + interval <= cps[|cps| - 1].seqNo;
    } else if cps != [] {
      assert cps[|cps| - 1].seqNo >= interval;
    }
  }

  /** A turn within known ground changes no checkpoint. */
  lemma DenseInside<T(!new)>(env: Env<T>, st: State<T>, n: nat, far: nat)
    requires env.Valid() && SeqsBounded(env) && st.interval > 0 && Dense(env, st, n, far) && n < far
    requires st.seat.Finished().None?
    ensures Dense(env, Turned(env, st), n + 1, far)
  {
    hide Step, Ext, Covered, Spaced, TakenBy;
    ExtNext(env, st.seat, n);
    var moved := st.(seat := Onward(env, st.seat));
    var next := Turned(env, st);
    if next != moved {
      var b := moved.seat.currentSeq.value;
      BoundedSeq(env, n + 1);
      assert Boundary(env, n + 1, b);
      NoneDueAgain(st.checkpoints, b, st.interval);
      assert false;
    }
  }

  /** A turn onto new ground covers its boundary. */
  lemma DenseOutside<T(!new)>(env: Env<T>, st: State<T>, n: nat)
    requires env.Valid() && SeqsBounded(env) && st.interval > 0 && Dense(env, st, n, n)
    requires st.seat.Finished().None?
    ensures Dense(env, Turned(env, st), n + 1, n + 1)
  {
    hide Step, Ext, Covered, Spaced, Boundary, TakenBy;
    ExtNext(env, st.seat, n);
    var moved := st.(seat := Onward(env, st.seat));
    var next := Turned(env, st);
    TakenFarther(env, st.checkpoints, n);
    if next == moved {
      forall k: nat, b: nat | k <= n + 1 && Boundary(env, k, b) && b >= st.interval
        ensures Covered(next.checkpoints, b, st.interval)
      {
        if k == n + 1 {
          NewBoundary(env, st, n, b);
        }
      }
    } else {
      PushedDense(env, st, n);
    }
  }

  lemma TakenFarther<T(!new)>(env: Env<T>, cps: seq<Snapshot<T>>, far: nat)
    requires forall i :: 0 <= i < |cps| ==> TakenBy(env, cps[i], far)
    ensures forall i :: 0 <= i < |cps| ==> TakenBy(env, cps[i], far + 1)
  {
    forall i | 0 <= i < |cps| ensures TakenBy(env, cps[i], far + 1) {
      assert TakenBy(env, cps[i], far);
    }
  }

  /** A new boundary with no checkpoint taken at it is close enough to the last one. */
  lemma NewBoundary<T(!new)>(env: Env<T>, st: State<T>, n: nat, b: nat)
    requires env.Valid() && SeqsBounded(env) && st.interval > 0 && Dense(env, st, n, n)
    requires st.seat.Finished().None? && Turned(env, st).checkpoints == st.checkpoints
    requires Boundary(env, n + 1, b) && b >= st.interval
    ensures Covered(st.checkpoints, b, st.interval)
  {
    hide Step, Ext, SeatOk;
    ExtNext(env, st.seat, n);
    ExtOk(env, n);
    SingleStop(env, st.seat);
    SyscallStopMoves(env, st.seat);
    BoundedSeq(env, n + 1);
    StaysSingle(env, st.seat);
    var cps := st.checkpoints;
    assert !IsCheckpointDue(LastCheckpoint(st), b, st.interval);
    assert cps != [];
    var last := cps[|cps| - 1];
    assert TakenBy(env, last, n);
    TakenSeq(env, last, n);
    assert b - st.interval < last.seqNo <= b;
  }

  lemma StaysSingle<T(!new)>(env: Env<T>, s: Seat<T>)
    requires SeatOk(env, s) && s.Single?
    ensures !env.Multithreaded()
  {
  }

  lemma PushedDense<T(!new)>(env: Env<T>, st: State<T>, n: nat)
    requires env.Valid() && SeqsBounded(env) && st.interval > 0 && Dense(env, st, n, n)
    requires st.seat.Finished().None?
    requires Turned(env, st) != st.(seat := Onward(env, st.seat))
    ensures Dense(env, Turned(env, st), n + 1, n + 1)
  {
    hide Step, Ext, SeatOk;
    var next := Turned(env, st);
    var cps := st.checkpoints;
    ExtNext(env, st.seat, n);
    ExtOk(env, n);
    SingleStop(env, st.seat);
    SyscallStopMoves(env, st.seat);
    BoundedSeq(env, n + 1);
    var cp := next.checkpoints[|cps|];
    assert next.checkpoints == cps + [cp] && SnapshotSeat(cp) == next.seat;
    assert TakenBy(env, cp, n + 1) by { assert Ext(env, n + 1) == Some(SnapshotSeat(cp)); }
    TakenFarther(env, cps, n);
    PushedSpaced(st, cp);
    PushedCovers(env, st, n, cp);
  }

  lemma PushedSpaced<T(!new)>(st: State<T>, cp: Snapshot<T>)
    requires Spaced(st.checkpoints, st.interval) && st.interval > 0 && cp.seqNo < U64_MAX
    requires IsCheckpointDue(LastCheckpoint(st), cp.seqNo, st.interval)
    ensures Spaced(st.checkpoints + [cp], st.interval)
  {
    var cps := st.checkpoints;
    forall i | 0 <= i < |cps| ensures cps[i].seqNo + st.interval <= cp.seqNo {
      assert i < |cps| - 1 ==> cps[i].seqNo + st.interval <= cps[|cps| - 1].seqNo;
    }
  }

  lemma PushedCovers<T(!new)>(env: Env<T>, st: State<T>, n: nat, cp: Snapshot<T>)
    requires Dense(env, st, n, n) && Ext(env, n + 1).Some? && st.interval > 0
    requires Ext(env, n + 1).value.Seq() == Some(cp.seqNo)
    ensures forall k: nat, b: nat :: k <= n + 1 && Boundary(env, k, b) && b >= st.interval ==>
              Covered(st.checkpoints + [cp], b, st.interval)
  {
    hide Step, Ext, TakenBy, Spaced;
    var all := st.checkpoints + [cp];
    forall k: nat, b: nat | k <= n + 1 && Boundary(env, k, b) && b >= st.interval ensures Covered(all, b, st.interval) {
      if k <= n {
        assert Covered(st.checkpoints, b, st.interval);
        var i :| 0 <= i < |st.checkpoints| && b - st.interval < st.checkpoints[i].seqNo <= b;
        assert all[i] == st.checkpoints[i];
      } else {
        assert all[|st.checkpoints|] == cp;
      }
    }
  }

  lemma {:induction false} DenseDrive<T(!new)>(env: Env<T>, st: State<T>, n: nat, far: nat, stopAt: Option<nat>,
                                               fuel: nat)
      returns (n': nat, far': nat)
    requires env.Valid() && SeqsBounded(env) && st.interval > 0 && Dense(env, st, n, far)
    ensures far <= far' && Dense(env, DriveEnds(env, st, stopAt, fuel), n', far')
    ensures DriveEnds(env, st, stopAt, fuel).interval == st.interval
    decreases fuel
  {
    hide Step, StepLeaves, Dense, Arrived, MaybeCheckpoint;
    n', far' := n, far;
    if st.seat.Finished().None? && !Arrived(st.seat, stopAt) && fuel > 0 {
      DenseBounds(env, st, n, far);
      TurnedSeat(env, st);
      if n < far {
        DenseInside(env, st, n, far);
        n', far' := n + 1, far;
      } else {
        DenseOutside(env, st, n);
        n', far' := n + 1, n + 1;
      }
      if Step(env, st.seat).Ok? {
        n', far' := DenseDrive(env, Turned(env, st), n', far', stopAt, fuel - 1);
      }
    }
  }

  lemma DenseBounds<T(!new)>(env: Env<T>, st: State<T>, n: nat, far: nat)
    requires Dense(env, st, n, far)
    ensures n <= far && Ext(env, n) == Some(st.seat)
  {
  }

  lemma DenseRestore<T(!new)>(env: Env<T>, st: State<T>, n: nat, far: nat, target: nat) returns (n': nat)
    requires Dense(env, st, n, far)
    ensures Dense(env, RestoreTo(env, st, target), n', far) && RestoreTo(env, st, target).interval == st.interval
  {
    hide Step, Boundary, Covered;
    match PlanStart(st, target)
    case None => n' := 0;
    case Some(i) =>
      assert TakenBy(env, st.checkpoints[i], far);
      n' :| 0 <= n' <= far && Ext(env, n') == Some(SnapshotSeat(st.checkpoints[i]));
  }

  lemma DenseCall<T(!new)>(env: Env<T>, st: State<T>, n: nat, far: nat, c: Command) returns (n': nat, far': nat)
    requires env.Valid() && SeqsBounded(env) && st.interval > 0 && Dense(env, st, n, far) && !c.DoSetInterval?
    ensures far <= far' && Dense(env, Ends(env, st, c), n', far') && Ends(env, st, c).interval == st.interval
  {
    hide Dense, DriveEnds, RestoreTo;
    n', far' := n, far;
    match c
    case DoRunTo(target, fuel) =>
      var m := DenseRestore(env, st, n, far, target);
      var start := RunStart(env, st, target);
      if start != st {
        n' := m;
      }
      n', far' := DenseDrive(env, start, n', far, Some(target), fuel);
    case DoStepTo(target, fuel) => n', far' := DenseDrive(env, st, n, far, Some(target), fuel);
    case DoRunToEnd(fuel) => n', far' := DenseDrive(env, st, n, far, None, fuel);
    case DoRestoreTo(target) => n' := DenseRestore(env, st, n, far, target);
  }

  /** After the first `k` calls the session sits no farther than `far`. */
  ghost predicate StateWithin<T(!new)>(env: Env<T>, st: State<T>, cs: seq<Command>, k: nat, far: nat)
    requires k <= |cs|
  {
    exists n :: 0 <= n <= far && Ext(env, n) == Some(AllEnds(env, st, cs[..k]).seat)
  }

  lemma {:induction false} DenseHistory<T(!new)>(env: Env<T>, st: State<T>, n: nat, far: nat, cs: seq<Command>)
      returns (n': nat, far': nat)
    requires env.Valid() && SeqsBounded(env) && st.interval > 0 && Dense(env, st, n, far)
    requires forall i :: 0 <= i < |cs| ==> !cs[i].DoSetInterval?
    ensures far <= far' && Dense(env, AllEnds(env, st, cs), n', far')
    ensures AllEnds(env, st, cs).interval == st.interval
    ensures forall k :: 0 <= k <= |cs| ==> StateWithin(env, st, cs, k, far')
    decreases |cs|
  {
    hide Dense, Ends, Ext;
    DenseBounds(env, st, n, far);
    if cs == [] {
      n', far' := n, far;
    } else {
      var next := Ends(env, st, cs[0]);
      var m, reach := DenseCall(env, st, n, far, cs[0]);
      n', far' := DenseHistory(env, next, m, reach, cs[1..]);
      forall k | 0 <= k <= |cs| ensures StateWithin(env, st, cs, k, far') {
        if k == 0 {
          assert cs[..0] == [];
        } else {
          assert cs[..k][0] == cs[0] && cs[..k][1..] == cs[1..][..k - 1];
          assert StateWithin(env, next, cs[1..], k - 1, far');
        }
      }
    }
  }

  /** With an interval set before the first drive and kept, after any history of calls,
      failed ones included: checkpoints are at least the interval apart, in ascending
      order, and never at seq 0; and every clean syscall-exit boundary, at the interval
      or later, up to the farthest point (`far`) any call left the session at,
      has a checkpoint less than one interval behind it. */
  lemma CheckpointDensity<T(!new)>(env: Env<T>, interval: nat, cs: seq<Command>) returns (far: nat)
    requires env.Valid() && SeqsBounded(env) && interval > 0
    requires forall i :: 0 <= i < |cs| ==> !cs[i].DoSetInterval?
    ensures var st0 := Ends(env, Launched(env), DoSetInterval(interval));
            var cps := AllEnds(env, st0, cs).checkpoints;
            && (forall k :: 0 <= k <= |cs| ==> StateWithin(env, st0, cs, k, far))
            && (forall i :: 0 <= i < |cps| ==> cps[i].seqNo >= interval)
            && (forall i, j :: 0 <= i < j < |cps| ==> cps[i].seqNo + interval <= cps[j].seqNo)
            && (forall n: nat, b: nat :: n <= far && Boundary(env, n, b) && b >= interval ==> Covered(cps, b, interval))
  {
    var st0 := Ends(env, Launched(env), DoSetInterval(interval));
    assert st0 == Launched(env).(interval := interval);
    hide Step, Ends;
    assert Ext(env, 0) == Some(Entry(env));
    assert Dense(env, st0, 0, 0);
    var n, reach := DenseHistory(env, st0, 0, 0, cs);
    far := reach;
  }

  // ---- Multi-threaded sessions ---------------------------------------------------------

  lemma {:induction false} DriveTakesNone<T(!new)>(env: Env<T>, st: State<T>, stopAt: Option<nat>, fuel: nat)
    requires env.Multithreaded() && st.checkpoints == []
    ensures DriveEnds(env, st, stopAt, fuel).checkpoints == []
    decreases fuel
  {
    hide Step, StepLeaves, Arrived;
    if st.seat.Finished().None? && !Arrived(st.seat, stopAt) && fuel > 0 && Step(env, st.seat).Ok? {
      DriveTakesNone(env, Turned(env, st), stopAt, fuel - 1);
    }
  }

  /** A multi-threaded session never holds a checkpoint, whatever is asked of it and whichever calls fail. */
  lemma {:induction false} MultithreadedNeverCheckpoints<T(!new)>(env: Env<T>, st: State<T>, cs: seq<Command>)
    requires env.Multithreaded() && st.checkpoints == []
    ensures AllEnds(env, st, cs).checkpoints == []
    decreases |cs|
  {
    hide DriveEnds;
    if cs != [] {
      match cs[0] {
        case DoRunTo(target, fuel) => DriveTakesNone(env, RunStart(env, st, target), Some(target), fuel);
        case DoStepTo(target, fuel) => DriveTakesNone(env, st, Some(target), fuel);
        case DoRunToEnd(fuel) => DriveTakesNone(env, st, None, fuel);
        case DoRestoreTo(_) =>
        case DoSetInterval(_) =>
      }
      MultithreadedNeverCheckpoints(env, Ends(env, st, cs[0]), cs[1..]);
    }
  }
}
