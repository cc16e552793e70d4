/** The debugger front end's cursor over the recorded syscall exits. */
module Backend {
  import opened Common
  import opened MtReplay
  import opened Session
  import opened Transparency
  import opened Derailment
  import opened Trajectory
  import opened Density
  import opened CheckpointSelect
  import ReplaySession

  datatype StopInfo = StoppedAt | HasEnded(code: int)

  datatype BackendError = Engine(halt: Halt) | NotSupported

  /** Resume requests and jumps; `Next` also stands for step-in and step-out. */
  datatype Request =
    | LaunchRequest
    | Continue
    | ReverseContinue
    | StepBack
    | Next
    | JumpToEvent(target: nat)

  /** `cursor` is the current event's index; the number of events means past the end. */
  datatype Dap<!T(!new)> = Dap(session: State<T>, cursor: nat, exited: Option<int>)

  type Answer<!T(!new)> = Result<(Dap<T>, StopInfo), BackendError>

  /** The seqs of the syscall exits, in order. */
  function ExitSeqs(records: seq<Record>): seq<nat> {
    if records == [] then []
    else (if records[0].event.body.SyscallExit? then [records[0].seqNo] else []) + ExitSeqs(records[1..])
  }

  function Events<T(!new)>(env: Env<T>): seq<nat> {
    ExitSeqs(env.records)
  }

  function Opened<T(!new)>(env: Env<T>, interval: nat): Dap<T> {
    Dap(Launched(env).(interval := interval), 0, None)
  }

  function ClassifyOutcome(outcome: ExitOutcome): (Option<int>, StopInfo) {
    match outcome
    case StillRunning => (None, StoppedAt)
    case HasExited(code) => (Some(code), HasEnded(code))
    case HasSignaled(sig) => (Some(128 + sig), HasEnded(128 + sig))
  }

  function Goto<T(!new)>(env: Env<T>, d: Dap<T>, index: nat, fuel: nat): Answer<T>
    requires index < |Events(env)|
  {
    match RunTo(env, d.session, Events(env)[index], fuel)
    case Err(h) => Err(Engine(h))
    case Ok((st, outcome)) =>
      var (exited, info) := ClassifyOutcome(outcome);
      Ok((Dap(st, index, exited), info))
  }

  function RunOut<T(!new)>(env: Env<T>, d: Dap<T>, fuel: nat): Answer<T> {
    match DriveSession(env, d.session, None, fuel)
    case Err(h) => Err(Engine(h))
    case Ok((st, outcome)) =>
      var (exited, info) := ClassifyOutcome(outcome);
      Ok((Dap(st, |Events(env)|, exited), info))
  }

  /** The last event at or before `reached`, or 0. */
  function EventAtOrBefore(events: seq<nat>, reached: nat): (i: nat)
    ensures events == [] ==> i == 0
    ensures events != [] ==> i < |events| && (events[i] <= reached || i == 0)
    ensures forall j :: i < j < |events| ==> events[j] > reached
  {
    if events == [] then 0
    else if events[|events| - 1] <= reached then |events| - 1
    else
      assert forall j :: 0 <= j < |events| - 1 ==> events[..|events| - 1][j] == events[j];
      EventAtOrBefore(events[..|events| - 1], reached)
  }

  function JumpTo<T(!new)>(env: Env<T>, d: Dap<T>, target: nat, fuel: nat): Answer<T> {
    match RunTo(env, d.session, target, fuel)
    case Err(h) => Err(Engine(h))
    case Ok((st, outcome)) =>
      var reached := if st.seat.Seq().Some? then st.seat.Seq().value else 0;
      var (exited, info) := ClassifyOutcome(outcome);
      Ok((Dap(st, EventAtOrBefore(Events(env), reached), exited), info))
  }

  /** Reachable cursors are in range, so no request indexes past the events. */
  ghost predicate InRange<T(!new)>(env: Env<T>, d: Dap<T>) {
    d.cursor <= |Events(env)|
  }

  function Answering<T(!new)>(env: Env<T>, d: Dap<T>, req: Request, fuel: nat): (a: Answer<T>)
    requires InRange(env, d)
    ensures a.Ok? ==> InRange(env, a.value.0)
  {
    var n := |Events(env)|;
    match req
    case LaunchRequest => if n == 0 then RunOut(env, d, fuel) else Goto(env, d, 0, fuel)
    case Continue => RunOut(env, d, fuel)
    case ReverseContinue => if n == 0 then RunOut(env, d, fuel) else Goto(env, d, 0, fuel)
    case StepBack =>
      if n == 0 then Err(NotSupported) else Goto(env, d, if d.cursor == 0 then 0 else d.cursor - 1, fuel)
    case Next => if d.cursor + 1 >= n then RunOut(env, d, fuel) else Goto(env, d, d.cursor + 1, fuel)
    case JumpToEvent(target) => JumpTo(env, d, target, fuel)
  }

  /** What a request asks of the session. */
  datatype Ask = Nothing | ToEnd | To(target: nat)

  function Asked<T(!new)>(env: Env<T>, d: Dap<T>, req: Request): Ask
    requires InRange(env, d)
  {
    var events := Events(env);
    match req
    case Continue => ToEnd
    case JumpToEvent(target) => To(target)
    case StepBack => if events == [] then Nothing else To(events[if d.cursor == 0 then 0 else d.cursor - 1])
    case Next => if d.cursor + 1 >= |events| then ToEnd else To(events[d.cursor + 1])
    case _ => if events == [] then ToEnd else To(events[0])
  }

  /** The backend after a request, answered or failed: a failed one has moved the session
      but neither the cursor nor the exit state, and serving goes on from there. */
  function AnswerEnds<T(!new)>(env: Env<T>, d: Dap<T>, req: Request, fuel: nat): (n: Dap<T>)
    requires InRange(env, d)
    ensures InRange(env, n)
  {
    match Answering(env, d, req, fuel)
    case Ok((n, _)) => n
    case Err(_) =>
      match Asked(env, d, req)
      case Nothing => d
      case ToEnd => d.(session := DriveEnds(env, d.session, None, fuel))
      case To(target) => d.(session := RunEnds(env, d.session, target, fuel))
  }

  /** A history of requests, each with the fuel it was given, failed ones included. */
  function History<T(!new)>(env: Env<T>, d: Dap<T>, reqs: seq<(Request, nat)>): (n: Dap<T>)
    requires InRange(env, d)
    ensures InRange(env, n)
    decreases |reqs|
  {
    if reqs == [] then d else History(env, AnswerEnds(env, d, reqs[0].0, reqs[0].1), reqs[1..])
  }

  /** Every request returned, with an answer or with a failure. */
  ghost predicate Returned<T(!new)>(env: Env<T>, d: Dap<T>, reqs: seq<(Request, nat)>)
    requires InRange(env, d)
    decreases |reqs|
  {
    reqs == []
    || (Answering(env, d, reqs[0].0, reqs[0].1) != Err(Engine(OutOfFuel))
        && Returned(env, AnswerEnds(env, d, reqs[0].0, reqs[0].1), reqs[1..]))
  }

  /** Every request was answered. */
  ghost predicate ErrorFree<T(!new)>(env: Env<T>, d: Dap<T>, reqs: seq<(Request, nat)>)
    requires InRange(env, d)
    decreases |reqs|
  {
    reqs == []
    || (Answering(env, d, reqs[0].0, reqs[0].1).Ok?
        && ErrorFree(env, AnswerEnds(env, d, reqs[0].0, reqs[0].1), reqs[1..]))
  }

  // ---- Time travel -----------------------------------------------------------------

  lemma RunToKeepsOk<T(!new)>(env: Env<T>, st: State<T>, target: nat, fuel: nat)
    requires env.Valid() && SessionOk(env, st) && RunTo(env, st, target, fuel).Ok?
    ensures SessionOk(env, RunTo(env, st, target, fuel).value.0)
  {
    hide SessionOk, DriveSession;
    ApplyKeepsOk(env, st, DoRunTo(target, fuel));
  }

  lemma AnswerKeepsOk<T(!new)>(env: Env<T>, d: Dap<T>, req: Request, fuel: nat)
    requires env.Valid() && InRange(env, d) && SessionOk(env, d.session) && Answering(env, d, req, fuel).Ok?
    ensures SessionOk(env, Answering(env, d, req, fuel).value.0.session)
  {
    hide SessionOk, DriveSession, RunTo;
    if DriveSession(env, d.session, None, fuel).Ok? {
      DriveKeepsOk(env, d.session, None, fuel);
    }
    forall target | RunTo(env, d.session, target, fuel).Ok?
      ensures SessionOk(env, RunTo(env, d.session, target, fuel).value.0)
    {
      RunToKeepsOk(env, d.session, target, fuel);
    }
  }

  lemma {:induction false} HistoryKeepsOk<T(!new)>(env: Env<T>, d: Dap<T>, reqs: seq<(Request, nat)>)
    requires env.Valid() && InRange(env, d) && SessionOk(env, d.session) && ErrorFree(env, d, reqs)
    ensures SessionOk(env, History(env, d, reqs).session)
    decreases |reqs|
  {
    hide SessionOk, Answering;
    if reqs != [] {
      AnswerKeepsOk(env, d, reqs[0].0, reqs[0].1);
      HistoryKeepsOk(env, AnswerEnds(env, d, reqs[0].0, reqs[0].1), reqs[1..]);
    }
  }

  lemma OpenedOk<T(!new)>(env: Env<T>, interval: nat)
    ensures SessionOk(env, Opened(env, interval).session)
  {
    LaunchedOk(env);
  }

  // ---- Requests as calls on the session ----------------------------------------------

  /** The call a request makes; one that asks nothing makes a call that does nothing. */
  function CommandFor(ask: Ask, fuel: nat): Command {
    match ask
    case Nothing => DoRunToEnd(0)
    case ToEnd => DoRunToEnd(fuel)
    case To(target) => DoRunTo(target, fuel)
  }

  lemma AnswerIsCall<T(!new)>(env: Env<T>, d: Dap<T>, req: Request, fuel: nat)
    requires InRange(env, d)
    ensures AnswerEnds(env, d, req, fuel).session == Ends(env, d.session, CommandFor(Asked(env, d, req), fuel))
  {
    hide DriveSession, DriveEnds, RunStart;
    match Asked(env, d, req)
    case Nothing => NoFuelNoMove(env, d.session);
    case ToEnd =>
      if DriveSession(env, d.session, None, fuel).Ok? {
        EndsAsReturned(env, d.session, None, fuel);
      }
    case To(target) =>
      var start := RunStart(env, d.session, target);
      if DriveSession(env, start, Some(target), fuel).Ok? {
        EndsAsReturned(env, start, Some(target), fuel);
      }
  }

  lemma NoFuelNoMove<T(!new)>(env: Env<T>, st: State<T>)
    ensures DriveEnds(env, st, None, 0) == st
  {
  }

  /** The calls a history of requests makes, one each. */
  function CommandsOf<T(!new)>(env: Env<T>, d: Dap<T>, reqs: seq<(Request, nat)>): (cs: seq<Command>)
    requires InRange(env, d)
    ensures |cs| == |reqs| && forall i :: 0 <= i < |cs| ==> !cs[i].DoSetInterval?
    decreases |reqs|
  {
    if reqs == [] then []
    else
      [CommandFor(Asked(env, d, reqs[0].0), reqs[0].1)]
      + CommandsOf(env, AnswerEnds(env, d, reqs[0].0, reqs[0].1), reqs[1..])
  }

  /** After any part of a history the session is where the calls made so far put it. */
  lemma {:induction false} HistoryIsCalls<T(!new)>(env: Env<T>, d: Dap<T>, reqs: seq<(Request, nat)>, k: nat)
    requires InRange(env, d) && k <= |reqs|
    ensures History(env, d, reqs[..k]).session == AllEnds(env, d.session, CommandsOf(env, d, reqs)[..k])
    decreases k
  {
    hide AnswerEnds, Ends, Asked;
    var cs := CommandsOf(env, d, reqs);
    if k == 0 {
      assert reqs[..0] == [] && cs[..0] == [];
    } else {
      AnswerIsCall(env, d, reqs[0].0, reqs[0].1);
      assert reqs[..k][0] == reqs[0] && reqs[..k][1..] == reqs[1..][..k - 1];
      assert cs[..k][0] == cs[0] && cs[..k][1..] == cs[1..][..k - 1];
      HistoryIsCalls(env, AnswerEnds(env, d, reqs[0].0, reqs[0].1), reqs[1..], k - 1);
    }
  }

  ghost predicate ServedWithin<T(!new)>(env: Env<T>, d: Dap<T>, reqs: seq<(Request, nat)>, k: nat, far: nat)
    requires InRange(env, d) && k <= |reqs|
  {
    exists n :: 0 <= n <= far && Ext(env, n) == Some(History(env, d, reqs[..k]).session.seat)
  }

  /** Checkpoint density over every history of requests, failed ones included. */
  lemma ServedDensity<T(!new)>(env: Env<T>, interval: nat, reqs: seq<(Request, nat)>) returns (far: nat)
    requires env.Valid() && SeqsBounded(env) && interval > 0
    ensures var d := Opened(env, interval);
            var cps := History(env, d, reqs).session.checkpoints;
            && (forall k :: 0 <= k <= |reqs| ==> ServedWithin(env, d, reqs, k, far))
            && (forall i :: 0 <= i < |cps| ==> cps[i].seqNo >= interval)
            && (forall i, j :: 0 <= i < j < |cps| ==> cps[i].seqNo + interval <= cps[j].seqNo)
            && (forall n: nat, b: nat :: n <= far && Boundary(env, n, b) && b >= interval ==> Covered(cps, b, interval))
  {
    hide AllEnds, Ext, Boundary, Covered, CommandsOf, History;
    var d := Opened(env, interval);
    var cs := CommandsOf(env, d, reqs);
    far := CheckpointDensity(env, interval, cs);
    HistoryIsCalls(env, d, reqs, |reqs|);
    assert reqs[..|reqs|] == reqs && cs[..|cs|] == cs;
    forall k | 0 <= k <= |reqs| ensures ServedWithin(env, d, reqs, k, far) {
      HistoryIsCalls(env, d, reqs, k);
      assert StateWithin(env, d.session, cs, k, far);
    }
  }

  /** And a debugger on a multi-threaded recording never lists a checkpoint. */
  lemma ServedWithoutCheckpoints<T(!new)>(env: Env<T>, interval: nat, reqs: seq<(Request, nat)>)
    requires env.Multithreaded()
    ensures History(env, Opened(env, interval), reqs).session.checkpoints == []
  {
    hide AllEnds, CommandsOf, History;
    var d := Opened(env, interval);
    var cs := CommandsOf(env, d, reqs);
    HistoryIsCalls(env, d, reqs, |reqs|);
    assert reqs[..|reqs|] == reqs && cs[..|cs|] == cs;
    MultithreadedNeverCheckpoints(env, d.session, cs);
  }

  lemma ServedTracked<T(!new)>(env: Env<T>, interval: nat, reqs: seq<(Request, nat)>)
    requires env.Valid()
    ensures Tracked(env, History(env, Opened(env, interval), reqs).session)
  {
    hide AllEnds, CommandsOf, History, Tracked;
    var d := Opened(env, interval);
    var cs := CommandsOf(env, d, reqs);
    HistoryIsCalls(env, d, reqs, |reqs|);
    assert reqs[..|reqs|] == reqs && cs[..|cs|] == cs;
    LaunchedTracked(env);
    IntervalTracked(env, Launched(env), interval);
    HistoryTracked(env, d.session, cs);
  }

  // ---- Which stops are a fresh replay's ------------------------------------------------

  lemma AnswerStands<T(!new)>(env: Env<T>, d: Dap<T>, req: Request, fuel: nat)
    requires env.Valid() && InRange(env, d) && Standing(env, d.session)
    requires Answering(env, d, req, fuel) != Err(Engine(OutOfFuel))
    ensures Standing(env, AnswerEnds(env, d, req, fuel).session)
  {
    hide Standing, DriveSession, DriveEnds, RunStart;
    match Asked(env, d, req)
    case Nothing =>
    case ToEnd =>
      DriveStands(env, d.session, None, fuel);
      if DriveSession(env, d.session, None, fuel).Ok? {
        EndsAsReturned(env, d.session, None, fuel);
      }
    case To(target) =>
      var start := RunStart(env, d.session, target);
      RunStartStands(env, d.session, target);
      DriveStands(env, start, Some(target), fuel);
      if DriveSession(env, start, Some(target), fuel).Ok? {
        EndsAsReturned(env, start, Some(target), fuel);
      }
  }

  /** After any history, failures and all, the session and its checkpoints are where a
      fresh replay would be, or past the point where it fails. */
  lemma {:induction false} HistoryStands<T(!new)>(env: Env<T>, d: Dap<T>, reqs: seq<(Request, nat)>)
    requires env.Valid() && InRange(env, d) && Standing(env, d.session) && Returned(env, d, reqs)
    ensures Standing(env, History(env, d, reqs).session)
    decreases |reqs|
  {
    hide Standing, Answering, AnswerEnds;
    if reqs != [] {
      AnswerStands(env, d, reqs[0].0, reqs[0].1);
      HistoryStands(env, AnswerEnds(env, d, reqs[0].0, reqs[0].1), reqs[1..]);
    }
  }

  /** The session is exactly where a fresh replay driven to the current event stops. */
  ghost predicate AtCursor<T(!new)>(env: Env<T>, d: Dap<T>) {
    d.cursor < |Events(env)| && Fresh(env, Events(env)[d.cursor], d.session.seat)
  }

  /** A stop is reported only of a run to an event, which the cursor then names. */
  lemma StopNamesEvent<T(!new)>(env: Env<T>, d: Dap<T>, req: Request, fuel: nat, n: Dap<T>)
    requires env.Valid() && InRange(env, d) && Tracked(env, d.session) && !req.JumpToEvent?
    requires Answering(env, d, req, fuel) == Ok((n, StoppedAt))
    ensures n.cursor < |Events(env)| && Asked(env, d, req) == To(Events(env)[n.cursor])
    ensures RunTo(env, d.session, Events(env)[n.cursor], fuel) == Ok((n.session, StillRunning))
  {
    hide *;
    var index := AnswerForm(env, d, req, fuel);
    if Asked(env, d, req).ToEnd? {
      RunOutNeverStops(env, d, fuel);
    } else {
      GotoStops(env, d, index, fuel, n);
    }
  }

  lemma RunOutNeverStops<T(!new)>(env: Env<T>, d: Dap<T>, fuel: nat)
    requires env.Valid() && Tracked(env, d.session) && RunOut(env, d, fuel).Ok?
    ensures RunOut(env, d, fuel).value.1 != StoppedAt
  {
    hide Ext, DriveSession, DriveEnds, SeatOk, Events, Kept;
    EndsAsReturned(env, d.session, None, fuel);
    DriveTracked(env, d.session, None, fuel);
    var n :| Ext(env, n) == Some(DriveEnds(env, d.session, None, fuel).seat);
    ExtOk(env, n);
    NeverStillRunning(env, DriveEnds(env, d.session, None, fuel).seat);
  }

  lemma GotoStops<T(!new)>(env: Env<T>, d: Dap<T>, index: nat, fuel: nat, n: Dap<T>)
    requires index < |Events(env)| && Goto(env, d, index, fuel) == Ok((n, StoppedAt))
    ensures n.cursor == index && RunTo(env, d.session, Events(env)[index], fuel) == Ok((n.session, StillRunning))
  {
    hide RunTo, Events;
  }

  lemma AnswerForm<T(!new)>(env: Env<T>, d: Dap<T>, req: Request, fuel: nat) returns (index: nat)
    requires InRange(env, d) && !req.JumpToEvent? && Answering(env, d, req, fuel).Ok?
    ensures match Asked(env, d, req)
            case Nothing => false
            case ToEnd => Answering(env, d, req, fuel) == RunOut(env, d, fuel)
            case To(target) =>
              && index < |Events(env)| && target == Events(env)[index]
              && Answering(env, d, req, fuel) == Goto(env, d, index, fuel)
  {
    hide Goto, RunOut, Events;
    index := 0;
    if req.StepBack? && d.cursor > 0 {
      index := d.cursor - 1;
    } else if req.Next? {
      index := d.cursor + 1;
    }
  }

  /** Time travel over every history, failed requests included: a launch, step or reverse
      request that reports a stop leaves the session in exactly the state a fresh
      replay reaches at the event under the cursor if and only if it ran from a
      state of the fresh replay. */
  lemma TimeTravel<T(!new)>(env: Env<T>, interval: nat, reqs: seq<(Request, nat)>, req: Request, fuel: nat, n: Dap<T>)
    requires env.Valid() && Returned(env, Opened(env, interval), reqs) && !req.JumpToEvent?
    requires Answering(env, History(env, Opened(env, interval), reqs), req, fuel) == Ok((n, StoppedAt))
    ensures n.cursor < |Events(env)|
    ensures var d := History(env, Opened(env, interval), reqs);
            AtCursor(env, n) <==> Seated(env, RunStart(env, d.session, Events(env)[n.cursor]).seat)
  {
    hide Standing, Answering, History, Returned, Seated, RunTo, RunStart, Fresh;
    var d := History(env, Opened(env, interval), reqs);
    OpenedStands(env, interval);
    HistoryStands(env, Opened(env, interval), reqs);
    ServedTracked(env, interval, reqs);
    StopNamesEvent(env, d, req, fuel, n);
    StopIsFresh(env, d.session, Events(env)[n.cursor], fuel, n.session);
  }

  lemma OpenedStands<T(!new)>(env: Env<T>, interval: nat)
    ensures Standing(env, Opened(env, interval).session)
  {
    OpenedOk(env, interval);
    OkIsStanding(env, Opened(env, interval).session);
  }

  /** The seq at which the fresh replay fails tells which stops can be trusted: those at
      events before it, whatever came before; none after it; and at it, those
      reached by a restart or from a state of the fresh replay. */
  lemma TrustedStops<T(!new)>(env: Env<T>, interval: nat, reqs: seq<(Request, nat)>, req: Request, fuel: nat,
                              n: Dap<T>, k: nat)
    requires env.Valid() && Returned(env, Opened(env, interval), reqs) && !req.JumpToEvent? && FailsAt(env, k)
    requires Answering(env, History(env, Opened(env, interval), reqs), req, fuel) == Ok((n, StoppedAt))
    ensures n.cursor < |Events(env)|
    ensures var target, wall := Events(env)[n.cursor], WallSeq(env, k);
            var st := History(env, Opened(env, interval), reqs).session;
            && (wall.Some? && target < wall.value ==> AtCursor(env, n))
            && (Below(wall, Some(target)) ==> !AtCursor(env, n))
            && (wall == Some(target) ==>
                  (AtCursor(env, n) <==> Restarts(st, target) || Seated(env, st.seat)))
  {
    hide Standing, Answering, History, Returned, Seated, RunTo, Fresh, FailsAt, StartSeq;
    var d := History(env, Opened(env, interval), reqs);
    OpenedStands(env, interval);
    HistoryStands(env, Opened(env, interval), reqs);
    ServedTracked(env, interval, reqs);
    StopNamesEvent(env, d, req, fuel, n);
    WallDecides(env, d.session, Events(env)[n.cursor], fuel, n.session, k);
  }

  predicate Restarts<T(!new)>(st: State<T>, target: nat) {
    ShouldRestart(st.seat.Seq(), StartSeq(st, target), target)
  }

  /** The first request to fail shows that seq: it is the session's current one. */
  lemma FirstFailureShowsWall<T(!new)>(env: Env<T>, interval: nat, reqs: seq<(Request, nat)>, req: Request, fuel: nat,
                                       e: ReplayError) returns (k: nat)
    requires env.Valid() && ErrorFree(env, Opened(env, interval), reqs)
    requires Answering(env, History(env, Opened(env, interval), reqs), req, fuel) == Err(Engine(Failed(e)))
    ensures FailsAt(env, k)
    ensures WallSeq(env, k) == AnswerEnds(env, History(env, Opened(env, interval), reqs), req, fuel).session.seat.Seq()
  {
    hide SessionOk, DriveSession, DriveEnds, FailsAt, Seated, Accounted, RunStart, History, ErrorFree;
    var d := History(env, Opened(env, interval), reqs);
    OpenedOk(env, interval);
    HistoryKeepsOk(env, Opened(env, interval), reqs);
    OkIsStanding(env, d.session);
    StandingParts(env, d.session);
    match Asked(env, d, req)
    case ToEnd => k := FirstFailureIsTheWall(env, d.session, None, fuel);
    case To(target) =>
      var start := RunStart(env, d.session, target);
      RunStartOk(env, d.session, target);
      OkIsStanding(env, start);
      StandingParts(env, start);
      k := FirstFailureIsTheWall(env, start, Some(target), fuel);
  }

  lemma RunStartOk<T(!new)>(env: Env<T>, st: State<T>, target: nat)
    requires SessionOk(env, st)
    ensures SessionOk(env, RunStart(env, st, target))
  {
    hide RestoreTo, SnapshotsOk, SettledAt;
    RestoreOk(env, st, target);
  }

  /** While no request has failed, every stop can be trusted. */
  lemma UnfailedTimeTravel<T(!new)>(env: Env<T>, interval: nat, reqs: seq<(Request, nat)>, req: Request, fuel: nat,
                                    n: Dap<T>)
    requires env.Valid() && ErrorFree(env, Opened(env, interval), reqs) && !req.JumpToEvent?
    requires Answering(env, History(env, Opened(env, interval), reqs), req, fuel) == Ok((n, StoppedAt))
    ensures AtCursor(env, n)
  {
    hide SessionOk, Standing, Answering, History, ErrorFree, Seated, RunTo, RunStart, Fresh;
    var d := History(env, Opened(env, interval), reqs);
    OpenedOk(env, interval);
    HistoryKeepsOk(env, Opened(env, interval), reqs);
    OkIsStanding(env, d.session);
    ServedTracked(env, interval, reqs);
    StopNamesEvent(env, d, req, fuel, n);
    RunStartOk(env, d.session, Events(env)[n.cursor]);
    OkIsStanding(env, RunStart(env, d.session, Events(env)[n.cursor]));
    StopIsFresh(env, d.session, Events(env)[n.cursor], fuel, n.session);
  }

  lemma {:induction false} FuelDoesNotMatter<T(!new)>(env: Env<T>, s: Seat<T>, stopAt: Option<nat>, f: nat, g: nat)
    requires DriveSeat(env, s, stopAt, f).Ok? && DriveSeat(env, s, stopAt, g).Ok?
    ensures DriveSeat(env, s, stopAt, f) == DriveSeat(env, s, stopAt, g)
    decreases f
  {
    hide Step, Arrived;
    if s.Finished().None? && !Arrived(s, stopAt) {
      FuelDoesNotMatter(env, Step(env, s).value.0, stopAt, f - 1, g - 1);
    }
  }

  lemma FreshIsUnique<T(!new)>(env: Env<T>, target: nat, a: Seat<T>, b: Seat<T>)
    requires Fresh(env, target, a) && Fresh(env, target, b)
    ensures a == b
  {
    hide DriveSeat;
    var f :| FreshAt(env, target, f, a);
    var g :| FreshAt(env, target, g, b);
    FuelDoesNotMatter(env, Entry(env), Some(target), f, g);
  }

  lemma {:induction false} EventsAscend(records: seq<Record>)
    requires forall i, j :: 0 <= i < j < |records| ==> records[i].seqNo < records[j].seqNo
    ensures forall i :: 0 <= i < |ExitSeqs(records)| ==> records != [] && records[0].seqNo <= ExitSeqs(records)[i]
    ensures forall i, j :: 0 <= i < j < |ExitSeqs(records)| ==> ExitSeqs(records)[i] < ExitSeqs(records)[j]
    decreases |records|
  {
    if records == [] {
      assert ExitSeqs(records) == [];
    } else {
      EventsAscend(records[1..]);
      var rest := ExitSeqs(records[1..]);
      forall i | 0 <= i < |rest| ensures records[0].seqNo < rest[i] {
        assert records[1..][0].seqNo <= rest[i];
      }
      assert ExitSeqs(records) == (if records[0].event.body.SyscallExit? then [records[0].seqNo] + rest else rest);
    }
  }

  /** Stepping forward and back again from any session on the trajectory lands on the first
      seat at or past the current event: it returns to where it was exactly when
      it was there. */
  lemma NextThenStepBack<T(!new)>(env: Env<T>, d: Dap<T>, f: nat, g: nat, ahead: Dap<T>, back: Dap<T>)
    requires env.Valid() && InRange(env, d) && Tracked(env, d.session) && d.cursor < |Events(env)|
    requires Answering(env, d, Next, f) == Ok((ahead, StoppedAt))
    requires Answering(env, ahead, StepBack, g) == Ok((back, StoppedAt))
    ensures back.cursor == d.cursor && Lands(env, Events(env)[d.cursor], back.session.seat)
    ensures back.session.seat == d.session.seat <==> Lands(env, Events(env)[d.cursor], d.session.seat)
    ensures AtCursor(env, d) ==> back.session.seat == d.session.seat
    ensures AtCursor(env, back) ==> (back.session.seat == d.session.seat <==> AtCursor(env, d))
  {
    hide Tracked, RunTo, Lands, StartSeq, RunEnds, Ends, Fresh;
    StopNamesEvent(env, d, Next, f, ahead);
    var next, target := Events(env)[d.cursor + 1], Events(env)[d.cursor];
    EventsAscend(env.records);
    StopLands(env, d.session, next, f, ahead.session);
    EndsTracked(env, d.session, DoRunTo(next, f));
    RunIsCall(env, d.session, next, f);
    StopNamesEvent(env, ahead, StepBack, g, back);
    StopLands(env, ahead.session, target, g, back.session);
    if AtCursor(env, d) {
      FreshLands(env, target, d.session.seat);
    }
    if Lands(env, target, d.session.seat) {
      LandsUniquely(env, target, d.session.seat, back.session.seat);
    }
  }

  lemma RunIsCall<T(!new)>(env: Env<T>, st: State<T>, target: nat, fuel: nat)
    ensures Ends(env, st, DoRunTo(target, fuel)) == RunEnds(env, st, target, fuel)
  {
    hide RunEnds;
  }

  /** There and back over every history, failed requests included. Once a request but a
      jump has reported a stop, stepping forward and back returns to that very state if
      and only if it is the first on the trajectory with its seq; and so it is unless
      that request returned at once, without moving, from a later state with that
      seq. A fresh replay's state at the event is always the first. */
  lemma StepThereAndBack<T(!new)>(env: Env<T>, interval: nat, reqs: seq<(Request, nat)>, req: Request,
                                  fuel: nat, d: Dap<T>, f: nat, g: nat, ahead: Dap<T>, back: Dap<T>)
    requires env.Valid() && !req.JumpToEvent?
    requires Answering(env, History(env, Opened(env, interval), reqs), req, fuel) == Ok((d, StoppedAt))
    requires InRange(env, d) && Answering(env, d, Next, f) == Ok((ahead, StoppedAt))
    requires InRange(env, ahead) && Answering(env, ahead, StepBack, g) == Ok((back, StoppedAt))
    ensures back.cursor == d.cursor < |Events(env)|
    ensures back.session.seat == d.session.seat <==> IsFirst(env, d.session.seat)
    ensures var st := History(env, Opened(env, interval), reqs).session;
            IsFirst(env, d.session.seat) <==> !Unmoved(st, Events(env)[d.cursor]) || IsFirst(env, st.seat)
    ensures AtCursor(env, d) ==> back.session.seat == d.session.seat
    ensures AtCursor(env, back) ==> (back.session.seat == d.session.seat <==> AtCursor(env, d))
  {
    hide Tracked, RunTo, Lands, IsFirst, Unmoved, Fresh, History, RunEnds, Ends, Answering;
    var d0 := History(env, Opened(env, interval), reqs);
    ServedTracked(env, interval, reqs);
    StopNamesEvent(env, d0, req, fuel, d);
    var target := Events(env)[d.cursor];
    StopLands(env, d0.session, target, fuel, d.session);
    RunIsCall(env, d0.session, target, fuel);
    EndsTracked(env, d0.session, DoRunTo(target, fuel));
    StopIsFirst(env, d0.session, target, fuel, d.session);
    NextThenStepBack(env, d, f, g, ahead, back);
  }

  // ---- The cursor ----------------------------------------------------------------------

  /** The events are exactly the recorded syscall exits. */
  lemma {:induction false} EventsAreExits(records: seq<Record>, q: nat)
    ensures q in ExitSeqs(records)
       <==> exists k :: 0 <= k < |records| && records[k].seqNo == q && records[k].event.body.SyscallExit?
    decreases |records|
  {
    if records == [] {
      assert ExitSeqs(records) == [];
    } else {
      EventsAreExits(records[1..], q);
      assert forall k :: 0 < k < |records| ==> records[k] == records[1..][k - 1];
      if q in ExitSeqs(records[1..]) {
        var k :| 0 <= k < |records[1..]| && records[1..][k].seqNo == q && records[1..][k].event.body.SyscallExit?;
        assert records[k + 1] == records[1..][k];
      }
    }
  }

  /** The last of `events` at or before what was reached, or the first of all. */
  ghost predicate NamesReached(events: seq<nat>, reached: nat, cursor: nat) {
    && (forall j :: cursor < j < |events| ==> events[j] > reached)
    && (cursor > 0 ==> cursor < |events| && events[cursor] <= reached)
  }

  /** Where each answered request leaves the cursor, past the last event for a run to the
      end, and how it reports the end: with the exit code, or 128 and the signal. */
  lemma AnswersMoveCursor<T(!new)>(env: Env<T>, d: Dap<T>, req: Request, fuel: nat, n: Dap<T>, info: StopInfo)
    requires InRange(env, d) && Answering(env, d, req, fuel) == Ok((n, info))
    ensures var last := |Events(env)|;
            match req
            case Continue => n.cursor == last
            case LaunchRequest => n.cursor == 0
            case ReverseContinue => n.cursor == 0
            case StepBack => last > 0 && n.cursor == if d.cursor > 0 then d.cursor - 1 else 0
            case Next => n.cursor == if d.cursor + 1 < last then d.cursor + 1 else last
            case JumpToEvent(_) =>
              NamesReached(Events(env), if n.session.seat.Seq().Some? then n.session.seat.Seq().value else 0, n.cursor)
    ensures match info
            case StoppedAt => n.exited == None
            case HasEnded(code) =>
              && n.exited == Some(code) && n.session.seat.Finished().Some?
              && match n.session.seat.Finished().value
                 case HasExited(c) => code == c
                 case HasSignaled(sig) => code == 128 + sig
                 case StillRunning => false
  {
    hide Events, DriveSession, RunStart;
    match Asked(env, d, req)
    case Nothing =>
    case ToEnd => EndsAsReturned(env, d.session, None, fuel);
    case To(target) => EndsAsReturned(env, RunStart(env, d.session, target), Some(target), fuel);
  }

  /** After any history, a run to the end followed by a step back that stops is at the
      last event: on the first state of the trajectory at or past it. */
  lemma EndThenStepBack<T(!new)>(env: Env<T>, interval: nat, reqs: seq<(Request, nat)>, req: Request, f: nat,
                                 end: Dap<T>, info: StopInfo, g: nat, back: Dap<T>)
    requires env.Valid()
    requires var d := History(env, Opened(env, interval), reqs);
             && (req == Continue || (req == Next && d.cursor + 1 >= |Events(env)|))
             && Answering(env, d, req, f) == Ok((end, info))
    requires InRange(env, end) && Answering(env, end, StepBack, g) == Ok((back, StoppedAt))
    ensures |Events(env)| > 0 && back.cursor == |Events(env)| - 1
    ensures Lands(env, Events(env)[|Events(env)| - 1], back.session.seat)
  {
    hide Tracked, Answering, Events, History, Lands;
    var d := History(env, Opened(env, interval), reqs);
    ServedTracked(env, interval, reqs);
    AnswersMoveCursor(env, d, req, f, end, info);
    AnswersMoveCursor(env, end, StepBack, g, back, StoppedAt);
    EndIsFinished(env, d, req, f, end, info);
    BackFromEnd(env, end, g, back);
  }

  lemma BackFromEnd<T(!new)>(env: Env<T>, end: Dap<T>, g: nat, back: Dap<T>)
    requires env.Valid() && InRange(env, end) && Tracked(env, end.session)
    requires end.session.seat.Finished().Some? && end.session.seat.Finished().value != StillRunning
    requires Answering(env, end, StepBack, g) == Ok((back, StoppedAt))
    ensures back.cursor < |Events(env)| && Lands(env, Events(env)[back.cursor], back.session.seat)
  {
    hide Tracked, Answering, Events, RunTo, Lands, StartSeq;
    StopNamesEvent(env, end, StepBack, g, back);
    var target := Events(env)[back.cursor];
    StopLands(env, end.session, target, g, back.session);
    if Unmoved(end.session, target) {
      FinishedNeverStops(env, end.session, target, g);
    }
  }

  lemma EndIsFinished<T(!new)>(env: Env<T>, d: Dap<T>, req: Request, fuel: nat, end: Dap<T>, info: StopInfo)
    requires env.Valid() && InRange(env, d) && Tracked(env, d.session)
    requires req == Continue || (req == Next && d.cursor + 1 >= |Events(env)|)
    requires Answering(env, d, req, fuel) == Ok((end, info))
    ensures Tracked(env, end.session) && end.session.seat.Finished().Some?
    ensures end.session.seat.Finished().value != StillRunning
  {
    hide Events, DriveSession, DriveEnds, Ext, Kept, SeatOk;
    EndsAsReturned(env, d.session, None, fuel);
    DriveTracked(env, d.session, None, fuel);
    var n :| Ext(env, n) == Some(end.session.seat);
    ExtOk(env, n);
    NeverStillRunning(env, end.session.seat);
  }

  lemma FinishedNeverStops<T(!new)>(env: Env<T>, st: State<T>, target: nat, fuel: nat)
    requires Unmoved(st, target) && st.seat.Finished().Some? && st.seat.Finished().value != StillRunning
    ensures RunTo(env, st, target, fuel) == Ok((st, st.seat.Finished().value))
  {
  }

  /** The backend object: a session, the event list and the cursor over it. */
  class ReplayBackend<T(!new)> {
    const env: Env<T>
    const events: seq<nat>
    const session: ReplaySession.LiveSession<T>
    var cursor: nat
    var exited: Option<int>

    ghost predicate Valid()
      reads this, session
    {
      session.env == env && events == Events(env) && InRange(env, View())
    }

    ghost function View(): Dap<T>
      reads this, session
    {
      Dap(session.View(), cursor, exited)
    }

    constructor (env: Env<T>, interval: nat)
      ensures Valid() && this.env == env && View() == Opened(env, interval) && fresh(session)
    {
      this.env := env;
      var all := Events(env);
      events := all;
      var s := new ReplaySession.LiveSession(env);
      s.CheckpointInterval(interval);
      session := s;
      cursor := 0;
      exited := None;
    }

    method Classified(outcome: ExitOutcome) returns (info: StopInfo)
      modifies this`exited
      ensures exited == ClassifyOutcome(outcome).0 && info == ClassifyOutcome(outcome).1
    {
      match outcome
      case StillRunning =>
        exited := None;
        info := StoppedAt;
      case HasExited(code) =>
        exited := Some(code);
        info := HasEnded(code);
      case HasSignaled(sig) =>
        exited := Some(128 + sig);
        info := HasEnded(128 + sig);
    }

    method GoTo(index: nat, fuel: nat) returns (answer: Result<StopInfo, BackendError>)
      requires Valid() && index < |events|
      modifies this, session
      ensures Valid()
      ensures match Goto(env, old(View()), index, fuel)
              case Ok(a) => answer == Ok(a.1) && View() == a.0
              case Err(e) =>
                && answer == Err(e)
                && View() == old(View()).(session := RunEnds(env, old(session.View()), events[index], fuel))
    {
      var outcome := session.Run(events[index], fuel);
      if outcome.Err? {
        return Err(Engine(outcome.error));
      }
      cursor := index;
      var info := Classified(outcome.value);
      return Ok(info);
    }

    method RunToEnd(fuel: nat) returns (answer: Result<StopInfo, BackendError>)
      requires Valid()
      modifies this, session
      ensures Valid()
      ensures match RunOut(env, old(View()), fuel)
              case Ok(a) => answer == Ok(a.1) && View() == a.0
              case Err(e) =>
                && answer == Err(e)
                && View() == old(View()).(session := DriveEnds(env, old(session.View()), None, fuel))
    {
      var outcome := session.Drive(None, fuel);
      if outcome.Err? {
        return Err(Engine(outcome.error));
      }
      cursor := |events|;
      var info := Classified(outcome.value);
      return Ok(info);
    }

    method Jump(target: nat, fuel: nat) returns (answer: Result<StopInfo, BackendError>)
      requires Valid()
      modifies this, session
      ensures Valid()
      ensures match JumpTo(env, old(View()), target, fuel)
              case Ok(a) => answer == Ok(a.1) && View() == a.0
              case Err(e) =>
                && answer == Err(e)
                && View() == old(View()).(session := RunEnds(env, old(session.View()), target, fuel))
    {
      var outcome := session.Run(target, fuel);
      if outcome.Err? {
        return Err(Engine(outcome.error));
      }
      var reached := if session.seat.Seq().Some? then session.seat.Seq().value else 0;
      cursor := EventAtOrBefore(events, reached);
      var info := Classified(outcome.value);
      return Ok(info);
    }

    method Serve(req: Request, fuel: nat) returns (answer: Result<StopInfo, BackendError>)
      requires Valid()
      modifies this, session
      ensures Valid() && View() == AnswerEnds(env, old(View()), req, fuel)
      ensures match Answering(env, old(View()), req, fuel)
              case Ok(a) => answer == Ok(a.1)
              case Err(e) => answer == Err(e)
    {
      hide Goto, RunOut, JumpTo;
      match req
      case Continue => answer := RunToEnd(fuel);
      case JumpToEvent(target) => answer := Jump(target, fuel);
      case Next =>
        if cursor + 1 >= |events| {
          answer := RunToEnd(fuel);
        } else {
          answer := GoTo(cursor + 1, fuel);
        }
      case StepBack =>
        if events == [] {
          answer := Err(NotSupported);
        } else {
          answer := GoTo(if cursor == 0 then 0 else cursor - 1, fuel);
        }
      case LaunchRequest =>
        if events == [] {
          answer := RunToEnd(fuel);
        } else {
          answer := GoTo(0, fuel);
        }
      case ReverseContinue =>
        if events == [] {
          answer := RunToEnd(fuel);
        } else {
          answer := GoTo(0, fuel);
        }
    }
  }
}
