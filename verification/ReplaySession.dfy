/** The replay session as an object whose calls re-seat and drive one tracee. */
module ReplaySession {
  import opened Common
  import opened MtReplay
  import opened CheckpointSelect
  import opened Session

  class LiveSession<T(!new)> {
    const env: Env<T>
    var seat: Seat<T>
    var interval: nat
    var checkpoints: seq<Snapshot<T>>

    ghost function View(): State<T>
      reads this
    {
      State(seat, interval, checkpoints)
    }

    constructor (env: Env<T>)
      ensures View() == Launched(env) && this.env == env
    {
      this.env := env;
      seat := Entry(env);
      interval := 0;
      checkpoints := [];
    }

    method CheckpointInterval(interval: nat)
      modifies this`interval
      ensures View() == old(View()).(interval := interval)
    {
      this.interval := interval;
    }

    /** Fork a snapshot at a clean boundary when one is due. */
    method TakeCheckpoint()
      modifies this`checkpoints
      ensures View() == MaybeCheckpoint(env, old(View()))
    {
      if env.Multithreaded() || !seat.Single? || seat.pending.Some? || seat.currentSeq.None? {
        return;
      }
      var last: Option<nat> := None;
      if checkpoints != [] {
        last := Some(checkpoints[|checkpoints| - 1].seqNo);
      }
      if IsCheckpointDue(last, seat.currentSeq.value, interval) {
        var snapshot := Snapshot(seat.currentSeq.value, seat.cursor, seat.currentSeq, seat.lastRegs, seat.tracee);
        checkpoints := checkpoints + [snapshot];
      }
    }

    /** The drive loop, for at most `fuel` turns. */
    method Drive(stopAt: Option<nat>, fuel: nat) returns (outcome: Driven<ExitOutcome>)
      modifies this
      ensures match DriveSession(env, old(View()), stopAt, fuel)
              case Ok(d) => outcome == Ok(d.1) && View() == d.0
              case Err(e) => outcome == Err(e)
      ensures View() == DriveEnds(env, old(View()), stopAt, fuel)
    {
      hide MaybeCheckpoint, Step, Arrived, StepLeaves;
      if seat.Finished().Some? {
        return Ok(seat.Finished().value);
      }
      var left := fuel;
      while seat.Finished().None?
        invariant DriveSession(env, View(), stopAt, left) == DriveSession(env, old(View()), stopAt, fuel)
        invariant DriveEnds(env, View(), stopAt, left) == DriveEnds(env, old(View()), stopAt, fuel)
        decreases left
      {
        if Arrived(seat, stopAt) {
          return Ok(StillRunning);
        }
        if left == 0 {
          return Err(OutOfFuel);
        }
        var step := Step(env, seat);
        if step.Err? {
          seat := StepLeaves(env, seat);
          return Err(Failed(step.error));
        }
        seat := step.value.0;
        if step.value.1 {
          TakeCheckpoint();
        }
        left := left - 1;
      }
      return Ok(seat.Finished().value);
    }

    method Plan(target: nat) returns (start: Option<nat>)
      ensures start == PlanStart(View(), target)
    {
      start := NearestAtOrBefore(Seqs(checkpoints), target);
    }

    method Restore(target: nat)
      modifies this`seat
      ensures View() == RestoreTo(env, old(View()), target)
    {
      var start := Plan(target);
      match start
      case Some(i) => seat := SnapshotSeat(checkpoints[i]);
      case None => seat := Entry(env);
    }

    /** Drive to `target`, from the nearest checkpoint when that helps or is needed. */
    method Run(target: nat, fuel: nat) returns (outcome: Driven<ExitOutcome>)
      modifies this
      ensures match RunTo(env, old(View()), target, fuel)
              case Ok(d) => outcome == Ok(d.1) && View() == d.0
              case Err(e) => outcome == Err(e)
      ensures View() == RunEnds(env, old(View()), target, fuel)
    {
      var start := Plan(target);
      var startSeq := if start.Some? then checkpoints[start.value].seqNo else 0;
      if ShouldRestart(seat.Seq(), startSeq, target) {
        Restore(target);
      }
      outcome := Drive(Some(target), fuel);
    }
  }
}
