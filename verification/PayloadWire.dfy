/** The payload of each event kind, byte by byte. */
module PayloadWire {
  import opened Common
  import opened Injection
  import Scheduling
  import SchedulerProperties
  import opened TraceFormat
  import opened TraceWire
  import opened Payload

  /** The 64 bits of a number in two's complement. */
  ghost predicate Signed64(x: i64, bits: nat) {
    bits <= U64_MAX && (x == bits || x + 0x1_0000_0000_0000_0000 == bits)
  }

  ghost predicate Signed32(x: int, bits: nat) {
    bits < 0x1_0000_0000 && -0x8000_0000 <= x < 0x8000_0000 && (x == bits || x + 0x1_0000_0000 == bits)
  }

  /** An event of this kind with this payload means this to a replay. */
  ghost predicate PayloadSays(kind: EventKind, p: seq<byte>, body: Scheduling.Body) {
    match body
    case SyscallEnter(nr, args) =>
      && kind.SyscallEnterKind? && |p| == 56 && nr == Eight(p, 0)
      && forall i :: 0 <= i < 6 ==> args[i] == Eight(p, 8 + 8 * i)
    case SyscallExit(nr, ret, data) =>
      && kind.SyscallExitKind? && |p| == 20 + |data| && nr == Eight(p, 0) && Signed64(ret, Eight(p, 8))
      && |data| == Four(p, 16) && data == p[20..]
    case SchedSwitch(next) => kind.SchedSwitchKind? && |p| >= 4 && next == Four(p, 0)
    case ThreadSpawn(parent, child) =>
      kind.ThreadSpawnKind? && |p| >= 8 && parent == Four(p, 0) && child == Four(p, 4)
    case ThreadExit(gone) => kind.ThreadExitKind? && |p| >= 4 && gone == Four(p, 0)
    case Delivery(signum) => kind.SignalKind? && |p| >= 4 && Signed32(signum, Four(p, 0))
    case Checkpoint => kind.CheckpointKind?
    case OtherKind => kind.SyncAcquireKind? || kind.SyncReleaseKind? || kind.ForkKind? || kind.Unknown?
  }

  lemma EnterIsRead(p: seq<byte>, nr: u64, args: Args)
    ensures DecodeEnter(p) == Ok((nr, args)) <==> PayloadSays(SyscallEnterKind, p, Scheduling.SyscallEnter(nr, args))
  {
    hide FromLE, Pow256, U64At, Eight;
    if |p| == 56 {
      NumbersAt(p, 0);
      forall i | 0 <= i < 6 ensures U64At(p, 8 + 8 * i) == Eight(p, 8 + 8 * i) {
        NumbersAt(p, 8 + 8 * i);
      }
      NumbersAt(p, 8);
      NumbersAt(p, 16);
      NumbersAt(p, 24);
      NumbersAt(p, 32);
      NumbersAt(p, 40);
      NumbersAt(p, 48);
      SixArgs(p, args);
    }
  }

  lemma SixArgs(p: seq<byte>, args: Args)
    requires |p| == 56
    ensures args == [Eight(p, 8), Eight(p, 16), Eight(p, 24), Eight(p, 32), Eight(p, 40), Eight(p, 48)]
       <==> forall i :: 0 <= i < 6 ==> args[i] == Eight(p, 8 + 8 * i)
  {
    hide Eight;
    var six: seq<int> := [Eight(p, 8), Eight(p, 16), Eight(p, 24), Eight(p, 32), Eight(p, 40), Eight(p, 48)];
    assert forall i :: 0 <= i < 6 ==> six[i] == Eight(p, 8 + 8 * i);
    if forall i :: 0 <= i < 6 ==> args[i] == Eight(p, 8 + 8 * i) {
      assert |args| == 6 && forall i :: 0 <= i < 6 ==> args[i] == six[i];
    }
  }

  lemma ExitIsRead(p: seq<byte>, nr: u64, ret: i64, data: seq<byte>)
    ensures DecodeExit(p) == Ok((nr, ret, data))
       <==> PayloadSays(SyscallExitKind, p, Scheduling.SyscallExit(nr, ret, data))
  {
    hide FromLE, Pow256, U64At, U32At, Eight, Four;
    if |p| >= 20 {
      NumbersAt(p, 0);
      NumbersAt(p, 8);
      NumbersAt(p, 16);
    }
  }

  /** Replay reads an event's body exactly when kind and payload spell it. */
  lemma EventIsRead(e: Event, body: Scheduling.Body)
    ensures DecodeBodyOf(e) == Ok(body) <==> PayloadSays(e.kind, e.payload, body)
  {
    hide FromLE, Pow256, U32At, Eight, Four, DecodeEnter, DecodeExit;
    NumbersAt(e.payload, 0);
    NumbersAt(e.payload, 4);
    if body.SyscallEnter? {
      EnterIsRead(e.payload, body.nr, body.args);
    }
    if body.SyscallExit? {
      ExitIsRead(e.payload, body.exitNr, body.ret, body.data);
    }
  }

  /** A recording is replayed under its thread schedule exactly when some record's kind is
      numbered 3, 9 or 10: a switch, a spawn or an exit. */
  lemma LifecycleKinds(e: Event, body: Scheduling.Body, tid: Option<Scheduling.Tid>)
    requires PayloadSays(e.kind, e.payload, body)
    ensures SchedulerProperties.IsLifecycle(Scheduling.Event(tid, body))
       <==> Numbered(e.kind, 3) || Numbered(e.kind, 9) || Numbered(e.kind, 10)
  {
    hide Eight, Four;
  }
}
