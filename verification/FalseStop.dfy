/** A history in which a stop reported after failed requests is not a fresh replay's. */
module FalseStop {
  import opened Common
  import opened Injection
  import opened Scheduling
  import opened Recording
  import opened MtReplay
  import opened Session
  import opened Transparency
  import opened Derailment
  import opened Trajectory
  import opened Backend

  const Zeros: Args := [0, 0, 0, 0, 0, 0]

  function Enter(seqNo: nat, nr: u64): Record {
    Record(seqNo, Event(Some(1), SyscallEnter(nr, Zeros)))
  }

  function Exit(seqNo: nat, nr: u64): Record {
    Record(seqNo, Event(Some(1), SyscallExit(nr, 0, [])))
  }

  /** The recorded syscalls were 1, 2 and 3. */
  const Recorded: seq<Record> := [Enter(0, 1), Exit(1, 1), Enter(2, 2), Exit(3, 2), Enter(4, 3), Exit(5, 3)]

  /** The live ones are 1, 9 and 3; the state counts the stops made. */
  function LiveRegs(stops: int): SyscallRegs {
    SyscallRegs(if stops <= 2 then 1 else if stops <= 4 then 9 else 3, 0, Zeros)
  }

  function Live(): Machine<int> {
    Machine(0, (n: int, sig: Option<Signal>) => (n + 1, AtSyscall), LiveRegs, (n: int) => n,
            (n: int, addr: nat, data: seq<byte>, ret: i64) => n)
  }

  function Diverging(): Env<int> {
    Env(Live(), Proc(1, 100, []), Recorded)
  }

  /** The session after `n` stops and `c` records. */
  function After(n: int, c: nat, reached: nat, entered: bool): Seat<int> {
    Single(n, c, Some(reached), if entered then Some(Pending(None)) else None, None, Some(LiveRegs(n)), None)
  }

  lemma DivergingFacts()
    ensures Diverging().Valid() && !Diverging().Multithreaded() && Events(Diverging()) == [1, 3, 5]
    ensures Entry(Diverging()) == Single(0, 0, None, None, None, None, None)
    ensures forall c :: 0 <= c <= 6 ==> SkipCheckpoints(Recorded, c) == c
  {
    hide ExitSeqs;
    ExitsFrom2();
    ExitsFrom0();
  }

  lemma ExitsFrom2()
    ensures ExitSeqs([Enter(2, 2), Exit(3, 2), Enter(4, 3), Exit(5, 3)]) == [3, 5]
  {
    var rs := [Enter(2, 2), Exit(3, 2), Enter(4, 3), Exit(5, 3)];
    assert rs[1..] == [Exit(3, 2), Enter(4, 3), Exit(5, 3)] && rs[1..][1..] == [Enter(4, 3), Exit(5, 3)];
    assert rs[1..][1..][1..] == [Exit(5, 3)] && rs[1..][1..][1..][1..] == [];
    assert ExitSeqs([Exit(5, 3)]) == [5] + ExitSeqs([]);
    assert ExitSeqs([Enter(4, 3), Exit(5, 3)]) == [5];
  }

  lemma ExitsFrom0()
    requires ExitSeqs([Enter(2, 2), Exit(3, 2), Enter(4, 3), Exit(5, 3)]) == [3, 5]
    ensures ExitSeqs(Recorded) == [1, 3, 5]
  {
    assert Recorded[1..] == [Exit(1, 1), Enter(2, 2), Exit(3, 2), Enter(4, 3), Exit(5, 3)];
    assert Recorded[1..][1..] == [Enter(2, 2), Exit(3, 2), Enter(4, 3), Exit(5, 3)];
    assert ExitSeqs(Recorded) == ExitSeqs(Recorded[1..]);
  }

  lemma TurnsMade()
    ensures var env := Diverging();
            && Step(env, Entry(env)) == Ok((After(1, 1, 0, true), true))
            && Step(env, After(1, 1, 0, true)) == Ok((After(2, 2, 1, false), true))
            && Step(env, After(2, 2, 1, false)) == Err(Diverged(2))
            && StepLeaves(env, After(2, 2, 1, false)) == After(3, 3, 1, false)
            && Step(env, After(3, 3, 1, false)) == Err(UnexpectedRecord(3))
            && StepLeaves(env, After(3, 3, 1, false)) == After(4, 4, 1, false)
            && Step(env, After(4, 4, 1, false)) == Ok((After(5, 5, 4, true), true))
  {
    DivergingFacts();
    hide SkipCheckpoints;
  }

  function Seen(s: Seat<int>): State<int> {
    State(s, 0, [])
  }

  lemma Driven2()
    ensures DriveSession(Diverging(), Seen(Entry(Diverging())), Some(1), 2)
         == Ok((Seen(After(2, 2, 1, false)), StillRunning))
  {
    TurnsMade();
    DivergingFacts();
    hide Step;
    var env := Diverging();
    assert DriveSession(env, Seen(After(2, 2, 1, false)), Some(1), 0)
        == Ok((Seen(After(2, 2, 1, false)), StillRunning));
    assert DriveSession(env, Seen(After(1, 1, 0, true)), Some(1), 1) == Ok((Seen(After(2, 2, 1, false)), StillRunning));
  }

  lemma Failing(from: Seat<int>, left: Seat<int>, e: ReplayError)
    requires from.Single? && from.finished.None? && from.currentSeq == Some(1)
    requires Step(Diverging(), from) == Err(e) && StepLeaves(Diverging(), from) == left
    ensures RunTo(Diverging(), Seen(from), 3, 1) == Err(Failed(e))
    ensures RunEnds(Diverging(), Seen(from), 3, 1) == Seen(left)
  {
    hide Step, StepLeaves;
  }

  lemma FinalRun()
    ensures RunTo(Diverging(), Seen(After(4, 4, 1, false)), 3, 1) == Ok((Seen(After(5, 5, 4, true)), StillRunning))
  {
    TurnsMade();
    hide Step;
    assert DriveSession(Diverging(), Seen(After(5, 5, 4, true)), Some(3), 0)
        == Ok((Seen(After(5, 5, 4, true)), StillRunning));
  }

  /** Launch stops at the first event; two steps fail, as the second live syscall is not
      the recorded one; the third step reports a stop at the second event. No
      fresh replay gets there: it fails with the first event reached. */
  lemma FailedStepsMislead()
    ensures var env, reqs := Diverging(), [(LaunchRequest, 2), (Next, 1), (Next, 1)];
            && env.Valid() && Returned(env, Opened(env, 0), reqs)
            && var n := Dap(Seen(After(5, 5, 4, true)), 1, None);
               && Answering(env, History(env, Opened(env, 0), reqs), Next, 1) == Ok((n, StoppedAt))
               && !AtCursor(env, n) && FailsAt(env, 2) && WallSeq(env, 2) == Some(1)
  {
    DivergingFacts();
    Misled();
    Wall();
    hide Step, StepLeaves, DriveSession, DriveEnds, RunEnds, At, Derailment.Fresh, FailsAt;
    NeverFresh(Dap(Seen(After(5, 5, 4, true)), 1, None));
  }

  lemma Wall()
    ensures FailsAt(Diverging(), 2) && WallSeq(Diverging(), 2) == Some(1)
  {
    TurnsMade();
    hide Step;
    var env := Diverging();
    assert At(env, 0) == Some(Entry(env));
    assert At(env, 1) == Some(After(1, 1, 0, true));
    assert At(env, 2) == Some(After(2, 2, 1, false));
  }

  lemma NeverFresh(n: Dap<int>)
    requires n.cursor == 1
    ensures !AtCursor(Diverging(), n)
  {
    Wall();
    DivergingFacts();
    hide FailsAt, Derailment.Fresh;
    if AtCursor(Diverging(), n) {
      FreshIsSeated(Diverging(), 3, n.session.seat);
    }
  }

  lemma Requests()
    requires DriveSession(Diverging(), Seen(Entry(Diverging())), Some(1), 2)
          == Ok((Seen(After(2, 2, 1, false)), StillRunning))
    requires RunTo(Diverging(), Seen(After(2, 2, 1, false)), 3, 1) == Err(Failed(Diverged(2)))
    requires RunEnds(Diverging(), Seen(After(2, 2, 1, false)), 3, 1) == Seen(After(3, 3, 1, false))
    requires RunTo(Diverging(), Seen(After(3, 3, 1, false)), 3, 1) == Err(Failed(UnexpectedRecord(3)))
    requires RunEnds(Diverging(), Seen(After(3, 3, 1, false)), 3, 1) == Seen(After(4, 4, 1, false))
    requires RunTo(Diverging(), Seen(After(4, 4, 1, false)), 3, 1) == Ok((Seen(After(5, 5, 4, true)), StillRunning))
    ensures var env, reqs := Diverging(), [(LaunchRequest, 2), (Next, 1), (Next, 1)];
            && Returned(env, Opened(env, 0), reqs)
            && History(env, Opened(env, 0), reqs) == Dap(Seen(After(4, 4, 1, false)), 0, None)
            && Answering(env, History(env, Opened(env, 0), reqs), Next, 1)
               == Ok((Dap(Seen(After(5, 5, 4, true)), 1, None), StoppedAt))
  {
    hide DriveSession, DriveEnds, RunEnds;
    DivergingFacts();
    var env := Diverging();
    var d0 := Opened(env, 0);
    assert RunTo(env, d0.session, 1, 2) == Ok((Seen(After(2, 2, 1, false)), StillRunning));
    hide RunTo;
    var d1, d2, d3 := Dap(Seen(After(2, 2, 1, false)), 0, None), Dap(Seen(After(3, 3, 1, false)), 0, None),
                      Dap(Seen(After(4, 4, 1, false)), 0, None);
    assert AnswerEnds(env, d0, LaunchRequest, 2) == d1;
    assert AnswerEnds(env, d1, Next, 1) == d2;
    assert AnswerEnds(env, d2, Next, 1) == d3;
    var reqs: seq<(Request, nat)> := [(LaunchRequest, 2), (Next, 1), (Next, 1)];
    assert reqs[1..] == [(Next, 1), (Next, 1)] && reqs[1..][1..] == [(Next, 1)] && reqs[1..][1..][1..] == [];
    assert History(env, d2, [(Next, 1)]) == History(env, d3, []) == d3;
    assert History(env, d1, reqs[1..]) == d3;
    assert Returned(env, d3, []) && Returned(env, d2, [(Next, 1)]) && Returned(env, d1, reqs[1..]);
  }

  lemma BackAndForth()
    ensures var env := Diverging();
            && RunTo(env, Seen(After(4, 4, 1, false)), 1, 0) == Ok((Seen(After(4, 4, 1, false)), StillRunning))
            && RunTo(env, Seen(After(5, 5, 4, true)), 1, 2) == Ok((Seen(After(2, 2, 1, false)), StillRunning))
  {
    Driven2();
    hide Step;
    assert RunStart(Diverging(), Seen(After(5, 5, 4, true)), 1) == Seen(Entry(Diverging()));
  }

  lemma SteppedAway()
    ensures var env := Diverging();
            var d, ahead, back := Dap(Seen(After(4, 4, 1, false)), 0, None), Dap(Seen(After(5, 5, 4, true)), 1, None),
                                  Dap(Seen(After(2, 2, 1, false)), 0, None);
            && InRange(env, d) && Answering(env, d, StepBack, 0) == Ok((d, StoppedAt))
            && Answering(env, d, Next, 1) == Ok((ahead, StoppedAt))
            && InRange(env, ahead) && Answering(env, ahead, StepBack, 2) == Ok((back, StoppedAt))
  {
    DivergingFacts();
    BackAndForth();
    FinalRun();
    hide RunTo;
  }

  /** After the same launch and failed steps, stepping back from the first event returns at
      once and reports a stop there, two stops past it. A step forward and one back
      then end at the event itself, not where they started. */
  lemma ThereIsNotBack()
    ensures var env, reqs := Diverging(), [(LaunchRequest, 2), (Next, 1), (Next, 1)];
            var d, ahead, back := Dap(Seen(After(4, 4, 1, false)), 0, None), Dap(Seen(After(5, 5, 4, true)), 1, None),
                                  Dap(Seen(After(2, 2, 1, false)), 0, None);
            && Answering(env, History(env, Opened(env, 0), reqs), StepBack, 0) == Ok((d, StoppedAt))
            && InRange(env, d) && Answering(env, d, Next, 1) == Ok((ahead, StoppedAt))
            && InRange(env, ahead) && Answering(env, ahead, StepBack, 2) == Ok((back, StoppedAt))
            && back.session.seat != d.session.seat && !IsFirst(env, d.session.seat)
  {
    var env := Diverging();
    var reqs: seq<(Request, nat)> := [(LaunchRequest, 2), (Next, 1), (Next, 1)];
    DivergingFacts();
    Misled();
    SteppedAway();
    hide Step, StepLeaves, DriveSession, RunTo, History, Answering, IsFirst;
    StepThereAndBack(env, 0, reqs, StepBack, 0, Dap(Seen(After(4, 4, 1, false)), 0, None), 1, 2,
                     Dap(Seen(After(5, 5, 4, true)), 1, None), Dap(Seen(After(2, 2, 1, false)), 0, None));
  }

  /** What the launch and the failed steps leave. */
  lemma Misled()
    ensures var env, reqs := Diverging(), [(LaunchRequest, 2), (Next, 1), (Next, 1)];
            && Returned(env, Opened(env, 0), reqs)
            && History(env, Opened(env, 0), reqs) == Dap(Seen(After(4, 4, 1, false)), 0, None)
            && Answering(env, History(env, Opened(env, 0), reqs), Next, 1)
               == Ok((Dap(Seen(After(5, 5, 4, true)), 1, None), StoppedAt))
  {
    DivergingFacts();
    TurnsMade();
    Driven2();
    Failing(After(2, 2, 1, false), After(3, 3, 1, false), Diverged(2));
    Failing(After(3, 3, 1, false), After(4, 4, 1, false), UnexpectedRecord(3));
    FinalRun();
    hide Step, StepLeaves, DriveSession, DriveEnds, RunEnds;
    Requests();
  }
}
