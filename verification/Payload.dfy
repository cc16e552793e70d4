/** The payload bytes of each event kind, and the recorder's log as trace events. */
module Payload {
  import opened Common
  import opened Injection
  import Scheduling
  import opened TraceFormat
  import TraceLog
  import TraceRoundTrip

  datatype PayloadError = TooShort(size: nat, need: nat) | LengthMismatch

  const ENTER_LEN: nat := 56
  const EXIT_PREFIX_LEN: nat := 20

  // ---- Two's complement ----------------------------------------------------------

  function FromI64(x: i64): u64 {
    if x < 0 then x + 0x1_0000_0000_0000_0000 else x
  }

  function ToI64(u: u64): i64 {
    if u >= 0x8000_0000_0000_0000 then u - 0x1_0000_0000_0000_0000 else u
  }

  function FromI32(x: i32): u32 {
    if x < 0 then x + 0x1_0000_0000 else x
  }

  function ToI32(u: u32): i32 {
    if u >= 0x8000_0000 then u - 0x1_0000_0000 else u
  }

  // ---- One pair per kind -----------------------------------------------------------

  function EncodeEnter(nr: u64, args: Args): seq<byte> {
    LE(nr, 8) + (LE(args[0], 8) + (LE(args[1], 8) + (LE(args[2], 8)
      + (LE(args[3], 8) + (LE(args[4], 8) + LE(args[5], 8))))))
  }

  function DecodeEnter(payload: seq<byte>): Result<(u64, Args), PayloadError> {
    if |payload| != ENTER_LEN then Err(TooShort(|payload|, ENTER_LEN))
    else
      Ok((U64At(payload, 0), [U64At(payload, 8), U64At(payload, 16), U64At(payload, 24), U64At(payload, 32),
                              U64At(payload, 40), U64At(payload, 48)]))
  }

  function EncodeExit(nr: u64, ret: i64, data: seq<byte>): seq<byte> {
    LE(nr, 8) + (LE(FromI64(ret), 8) + (LE(|data| % 0x1_0000_0000, 4) + data))
  }

  function DecodeExit(payload: seq<byte>): Result<(u64, i64, seq<byte>), PayloadError> {
    if |payload| < EXIT_PREFIX_LEN then Err(TooShort(|payload|, EXIT_PREFIX_LEN))
    else
      var data := payload[EXIT_PREFIX_LEN..];
      if |data| != U32At(payload, 16) then Err(LengthMismatch)
      else Ok((U64At(payload, 0), ToI64(U64At(payload, 8)), data))
  }

  function ReadU32(payload: seq<byte>, offset: nat): Result<u32, PayloadError> {
    if offset + 4 > |payload| then Err(TooShort(|payload|, offset + 4)) else Ok(U32At(payload, offset))
  }

  lemma EnterRoundTrip(nr: u64, args: Args)
    ensures DecodeEnter(EncodeEnter(nr, args)) == Ok((nr, args))
  {
    var p := EncodeEnter(nr, args);
    PowValues();
    LERoundTrip(nr, 8);
    forall i | 0 <= i < 6 ensures FromLE(LE(args[i], 8)) == args[i] {
      LERoundTrip(args[i], 8);
    }
    hide LE, FromLE;
    assert p[0..8] == LE(nr, 8) && p[8..16] == LE(args[0], 8) && p[16..24] == LE(args[1], 8);
    assert p[24..32] == LE(args[2], 8) && p[32..40] == LE(args[3], 8);
    assert p[40..48] == LE(args[4], 8) && p[48..56] == LE(args[5], 8);
    assert DecodeEnter(p).value.1 == args;
  }

  /** An exit payload decodes to what was encoded exactly when its data length fits
      32 bits; otherwise the stored length disagrees and it is rejected. */
  lemma ExitRoundTrip(nr: u64, ret: i64, data: seq<byte>)
    ensures DecodeExit(EncodeExit(nr, ret, data))
         == if |data| < 0x1_0000_0000 then Ok((nr, ret, data)) else Err(LengthMismatch)
  {
    var p := EncodeExit(nr, ret, data);
    var len := |data| % 0x1_0000_0000;
    PowValues();
    LERoundTrip(nr, 8);
    LERoundTrip(FromI64(ret), 8);
    LERoundTrip(len, 4);
    hide LE, FromLE;
    assert p[0..8] == LE(nr, 8) && p[8..16] == LE(FromI64(ret), 8) && p[16..20] == LE(len, 4);
    assert p[20..] == data;
  }

  lemma TidRoundTrip(tid: u32)
    ensures ReadU32(LE(tid, 4), 0) == Ok(tid)
  {
    PowValues();
    LERoundTrip(tid, 4);
    assert LE(tid, 4)[0..4] == LE(tid, 4);
  }

  lemma SpawnRoundTrip(parent: u32, child: u32)
    ensures var p := LE(parent, 4) + LE(child, 4); ReadU32(p, 0) == Ok(parent) && ReadU32(p, 4) == Ok(child)
  {
    var p := LE(parent, 4) + LE(child, 4);
    PowValues();
    LERoundTrip(parent, 4);
    LERoundTrip(child, 4);
    assert p[0..4] == LE(parent, 4) && p[4..8] == LE(child, 4);
  }

  // ---- The recorder's log on the wire -------------------------------------------------

  /** What the recorder's fields must satisfy to be stored: thread ids and signal
      numbers of their width, and captured data within a record. */
  ghost predicate Encodable(e: Scheduling.Event) {
    && e.tid.Some? && e.tid.value < 0x1_0000_0000
    && match e.body
       case SyscallEnter(_, _) => true
       case SyscallExit(_, _, data) => BODY_PREFIX_LEN_V3 + EXIT_PREFIX_LEN + |data| <= MAX_BODY_LEN
       case SchedSwitch(next) => next < 0x1_0000_0000
       case ThreadSpawn(parent, child) => parent < 0x1_0000_0000 && child < 0x1_0000_0000
       case ThreadExit(gone) => gone < 0x1_0000_0000
       case Delivery(signum) => -0x8000_0000 <= signum < 0x8000_0000
       case Checkpoint => true
       case OtherKind => false
  }

  ghost function Wire(e: Scheduling.Event, timestampNs: u64): Event
    requires Encodable(e)
  {
    var (kind, payload) :=
      match e.body
      case SyscallEnter(nr, args) => (SyscallEnterKind, EncodeEnter(nr, args))
      case SyscallExit(nr, ret, data) => (SyscallExitKind, EncodeExit(nr, ret, data))
      case SchedSwitch(next) => (SchedSwitchKind, LE(next, 4))
      case ThreadSpawn(parent, child) => (ThreadSpawnKind, LE(parent, 4) + LE(child, 4))
      case ThreadExit(gone) => (ThreadExitKind, LE(gone, 4))
      case Delivery(signum) => (SignalKind, LE(FromI32(signum), 4))
      case Checkpoint => (CheckpointKind, [])
      case OtherKind => (ForkKind, []);
    Event(kind, timestampNs, Some(e.tid.value), payload)
  }

  /** How the replay drivers read an event's kind and payload. */
  function DecodeEvent(e: Event): Result<Scheduling.Event, PayloadError> {
    var tid: Option<Scheduling.Tid> := if e.tid.Some? then Some(e.tid.value) else None;
    var body :- DecodeBodyOf(e);
    Ok(Scheduling.Event(tid, body))
  }

  function DecodeBodyOf(e: Event): Result<Scheduling.Body, PayloadError> {
    match e.kind
    case SyscallEnterKind => var p :- DecodeEnter(e.payload); Ok(Scheduling.SyscallEnter(p.0, p.1))
    case SyscallExitKind => var p :- DecodeExit(e.payload); Ok(Scheduling.SyscallExit(p.0, p.1, p.2))
    case SchedSwitchKind => var t :- ReadU32(e.payload, 0); Ok(Scheduling.SchedSwitch(t))
    case ThreadSpawnKind =>
      var parent :- ReadU32(e.payload, 0);
      var child :- ReadU32(e.payload, 4);
      Ok(Scheduling.ThreadSpawn(parent, child))
    case ThreadExitKind => var t :- ReadU32(e.payload, 0); Ok(Scheduling.ThreadExit(t))
    case SignalKind => var s :- ReadU32(e.payload, 0); Ok(Scheduling.Delivery(ToI32(s)))
    case CheckpointKind => Ok(Scheduling.Checkpoint)
    case _ => Ok(Scheduling.OtherKind)
  }

  lemma WireRoundTrip(e: Scheduling.Event, timestampNs: u64)
    requires Encodable(e)
    ensures DecodeEvent(Stored(Wire(e, timestampNs))) == Ok(e)
    ensures TraceRoundTrip.Fits(Wire(e, timestampNs))
  {
    hide LE;
    match e.body
    case SyscallEnter(nr, args) => EnterRoundTrip(nr, args);
    case SyscallExit(nr, ret, data) => ExitRoundTrip(nr, ret, data);
    case SchedSwitch(next) => TidRoundTrip(next);
    case ThreadSpawn(parent, child) => SpawnRoundTrip(parent, child);
    case ThreadExit(gone) => TidRoundTrip(gone);
    case Delivery(signum) => TidRoundTrip(FromI32(signum));
    case Checkpoint =>
  }

  ghost function WireLog(log: seq<Scheduling.Event>, clock: nat -> u64): (events: seq<Event>)
    requires forall i :: 0 <= i < |log| ==> Encodable(log[i])
    ensures |events| == |log|
  {
    seq(|log|, i requires 0 <= i < |log| => Wire(log[i], clock(i)))
  }

  /** A recorder's log, written to a trace and read back, decodes record by record
      to the same log under consecutive seqs: what replay consumes is what was recorded. */
  lemma LogSurvives(codec: Codec, log: seq<Scheduling.Event>, clock: nat -> u64)
    requires |log| <= U64_MAX && forall i :: 0 <= i < |log| ==> Encodable(log[i])
    ensures var (records, error) :=
              TraceLog.ReadAll(codec, FORMAT_VERSION, None, TraceLog.Frames(codec, 0, WireLog(log, clock)));
            && error.None? && |records| == |log|
            && (forall i :: 0 <= i < |log| ==>
                  records[i].seqNo == i && DecodeEvent(records[i].event) == Ok(log[i]))
  {
    var events := WireLog(log, clock);
    forall i | 0 <= i < |log|
      ensures DecodeEvent(Stored(events[i])) == Ok(log[i]) && TraceRoundTrip.Fits(events[i])
    {
      WireRoundTrip(log[i], clock(i));
    }
    hide Wire, DecodeEvent, TraceLog.ReadAll, TraceLog.Frames;
    TraceRoundTrip.RecordsExact(codec, 0, events);
  }
}
