/** Driving to the seq of a record stops on that record, not merely past it. */
module Landing {
  import opened Common
  import opened MtReplay
  import opened Session
  import opened Transparency
  import opened Derailment
  import opened Backend

  /** The current seq is that of the last consumed record that is not a checkpoint mark. */
  ghost predicate CaughtUp<T(!new)>(env: Env<T>, s: Seat<T>) {
    forall k :: 0 <= k < s.Cursor() && k < |env.records| && !env.records[k].event.body.Checkpoint? ==>
      s.Seq().Some? && env.records[k].seqNo <= s.Seq().value
  }

  /** The turn consumed record `at`, passing over nothing but checkpoint marks. */
  ghost predicate Took<T(!new)>(env: Env<T>, s: Seat<T>, n: Seat<T>, at: nat) {
    && s.Cursor() <= at < |env.records| && n.Cursor() == at + 1 && n.Seq() == Some(env.records[at].seqNo)
    && (forall k :: s.Cursor() <= k < at ==> env.records[k].event.body.Checkpoint?)
  }

  lemma TakingCatchesUp<T(!new)>(env: Env<T>, s: Seat<T>, n: Seat<T>, at: nat)
    requires env.Valid() && CaughtUp(env, s) && Took(env, s, n, at)
    ensures CaughtUp(env, n)
  {
    forall k | 0 <= k < n.Cursor() && k < |env.records| && !env.records[k].event.body.Checkpoint?
      ensures n.Seq().Some? && env.records[k].seqNo <= n.Seq().value
    {
      assert k < at ==> env.records[k].seqNo < env.records[at].seqNo;
    }
  }

  lemma StepCatchesUp<T(!new)>(env: Env<T>, s: Seat<T>) returns (at: nat)
    requires env.Valid() && CaughtUp(env, s) && s.Finished().None? && Step(env, s).Ok?
    ensures CaughtUp(env, Step(env, s).value.0)
    ensures Step(env, s).value.0.Seq() == s.Seq() || Took(env, s, Step(env, s).value.0, at)
  {
    var n := Step(env, s).value.0;
    if s.Multi? {
      at := s.rep.cursor;
      assert env.records[at].event.body.Checkpoint? || Took(env, s, n, at);
      hide Consume;
    } else {
      at := SkipCheckpoints(env.records, s.cursor);
    }
    if Took(env, s, n, at) {
      TakingCatchesUp(env, s, n, at);
    }
  }

  lemma {:induction false} DriveLands<T(!new)>(env: Env<T>, s: Seat<T>, target: nat, fuel: nat, k: nat, end: Seat<T>)
    requires env.Valid() && CaughtUp(env, s) && (s.Seq().None? || s.Seq().value <= target)
    requires k < |env.records| && env.records[k].seqNo == target && !env.records[k].event.body.Checkpoint?
    requires DriveSeat(env, s, Some(target), fuel) == Ok((end, StillRunning)) && s.Finished() != Some(StillRunning)
    requires SeatOk(env, s)
    ensures end.Seq() == Some(target)
    decreases fuel
  {
    hide Step, SeatOk;
    if s.Finished().None? && !Arrived(s, Some(target)) {
      var n := Step(env, s).value.0;
      var at := StepCatchesUp(env, s);
      StepMoves(env, s);
      NeverStillRunning(env, n);
      if n.Seq() != s.Seq() {
        assert k >= s.Cursor();
        assert at <= k;
        assert at < k ==> env.records[at].seqNo < env.records[k].seqNo;
      }
      DriveLands(env, n, target, fuel - 1, k, end);
    }
  }

  lemma {:induction false} EventIsRecord(records: seq<Record>, i: nat) returns (k: nat)
    requires i < |ExitSeqs(records)|
    ensures k < |records| && records[k].seqNo == ExitSeqs(records)[i] && records[k].event.body.SyscallExit?
  {
    if records[0].event.body.SyscallExit? && i == 0 {
      k := 0;
    } else {
      var j := EventIsRecord(records[1..], if records[0].event.body.SyscallExit? then i - 1 else i);
      k := j + 1;
    }
  }

  /** At the cursor's event the session reports exactly that event's seq. */
  lemma LandsOnEvent<T(!new)>(env: Env<T>, d: Dap<T>)
    requires env.Valid() && AtCursor(env, d)
    ensures d.session.seat.Seq() == Some(Events(env)[d.cursor])
  {
    var target := Events(env)[d.cursor];
    var fuel :| FreshAt(env, target, fuel, d.session.seat);
    var k := EventIsRecord(env.records, d.cursor);
    EntryOk(env);
    DriveLands(env, Entry(env), target, fuel, k, d.session.seat);
  }
}
