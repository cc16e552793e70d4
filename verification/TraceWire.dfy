/** The trace on the wire, byte by byte: what is written, and exactly what a reader accepts. */
module TraceWire {
  import opened Common
  import opened TraceFormat
  import opened TraceLog

  // ---- Numbers ------------------------------------------------------------------------------

  function Two(b: seq<byte>, at: nat): nat
    requires at + 2 <= |b|
  {
    var low: nat, high: nat := b[at], b[at + 1];
    low + 0x100 * high
  }

  function Four(b: seq<byte>, at: nat): nat
    requires at + 4 <= |b|
  {
    Two(b, at) + 0x1_0000 * Two(b, at + 2)
  }

  function Eight(b: seq<byte>, at: nat): nat
    requires at + 8 <= |b|
  {
    Four(b, at) + 0x1_0000_0000 * Four(b, at + 4)
  }

  lemma FromTwo(s: seq<byte>)
    requires |s| == 2
    ensures FromLE(s) == Two(s, 0)
  {
    assert FromLE(s[1..][1..]) == 0;
    assert FromLE(s[1..]) == s[1];
  }

  lemma FromFour(s: seq<byte>)
    requires |s| == 4
    ensures FromLE(s) == Four(s, 0)
  {
    FromTwo(s[2..]);
    var u, v := s[1..], s[2..];
    assert u[1..] == v && v[0] == s[2] && v[1] == s[3];
    assert FromLE(u) == u[0] + 256 * FromLE(v);
    assert FromLE(s) == s[0] + 256 * FromLE(u);
  }

  lemma {:induction false} FromSplit(s: seq<byte>, k: nat)
    requires k <= |s|
    ensures FromLE(s) == FromLE(s[..k]) + Pow256(k) * FromLE(s[k..])
    decreases k
  {
    if k == 0 {
      assert s[0..] == s;
    } else {
      FromSplit(s[1..], k - 1);
      assert s[1..][..k - 1] == s[..k][1..] && s[1..][k - 1..] == s[k..];
      Scaled(Pow256(k - 1), FromLE(s[k..]));
    }
  }

  lemma Scaled(p: nat, x: nat)
    ensures 256 * (p * x) == (256 * p) * x
  {
  }

  lemma FromEight(s: seq<byte>)
    requires |s| == 8
    ensures FromLE(s) == Eight(s, 0)
  {
    hide FromLE;
    FromSplit(s, 4);
    PowValues();
    FromFour(s[..4]);
    FromFour(s[4..]);
  }

  /** The reader's numbers are the little-endian ones. */
  lemma NumbersAt(b: seq<byte>, at: nat)
    ensures at + 2 <= |b| ==> U16At(b, at) == Two(b, at)
    ensures at + 4 <= |b| ==> U32At(b, at) == Four(b, at)
    ensures at + 8 <= |b| ==> U64At(b, at) == Eight(b, at)
  {
    hide FromLE, Pow256;
    if at + 2 <= |b| {
      FromTwo(b[at..at + 2]);
    }
    if at + 4 <= |b| {
      FromFour(b[at..at + 4]);
    }
    if at + 8 <= |b| {
      FromEight(b[at..at + 8]);
    }
  }

  /** The writer's numbers read back. */
  lemma Written(n: nat)
    ensures n < 0x1_0000 ==> Two(LE(n, 2), 0) == n
    ensures n < 0x1_0000_0000 ==> Four(LE(n, 4), 0) == n
    ensures n <= U64_MAX ==> Eight(LE(n, 8), 0) == n
  {
    PowValues();
    hide FromLE, LE, Pow256;
    FromTwo(LE(n, 2));
    FromFour(LE(n, 4));
    FromEight(LE(n, 8));
    if n < 0x1_0000 {
      LERoundTrip(n, 2);
    }
    if n < 0x1_0000_0000 {
      LERoundTrip(n, 4);
    }
    if n <= U64_MAX {
      LERoundTrip(n, 8);
    }
  }

  // ---- Records ----------------------------------------------------------------------------------

  /** The number of each kind; an unknown one keeps the number it was read with. */
  ghost predicate Numbered(kind: EventKind, raw: nat) {
    match kind
    case SyscallEnterKind => raw == 1
    case SyscallExitKind => raw == 2
    case SchedSwitchKind => raw == 3
    case SignalKind => raw == 4
    case SyncAcquireKind => raw == 5
    case SyncReleaseKind => raw == 6
    case ForkKind => raw == 7
    case CheckpointKind => raw == 8
    case ThreadSpawnKind => raw == 9
    case ThreadExitKind => raw == 10
    case Unknown(n) => n == raw && (raw == 0 || raw > 10)
  }

  /** A body: seq, timestamp, from version 3 on the tid, then kind and payload. */
  ghost predicate BodySays(version: u16, body: seq<byte>, r: Record) {
    if version >= 3 then
      && |body| >= 22 && r.seqNo == Eight(body, 0) && r.event.timestampNs == Eight(body, 8)
      && r.event.tid == Some(Four(body, 16)) && Numbered(r.event.kind, Two(body, 20)) && r.event.payload == body[22..]
    else
      && |body| >= 18 && r.seqNo == Eight(body, 0) && r.event.timestampNs == Eight(body, 8)
      && r.event.tid == None && Numbered(r.event.kind, Two(body, 16)) && r.event.payload == body[18..]
  }

  lemma KindIsNumbered(raw: u16, kind: EventKind)
    ensures FromU16(raw) == kind <==> Numbered(kind, raw)
  {
  }

  /** Decoding a body is reading these fields. */
  lemma BodyIsRead(version: u16, body: seq<byte>, r: Record)
    requires |body| >= MinBodyLen(version)
    ensures DecodeBody(version, body) == r <==> BodySays(version, body, r)
  {
    hide FromLE, Pow256, FromU16, U64At, U32At, U16At, Four, Two, Eight, Numbered;
    NumbersAt(body, 0);
    NumbersAt(body, 8);
    NumbersAt(body, 16);
    var kindAt := if version >= 3 then 20 else 16;
    NumbersAt(body, kindAt);
    KindIsNumbered(U16At(body, kindAt), r.event.kind);
    if DecodeBody(version, body) == r {
      assert BodySays(version, body, r);
    }
  }

  /** The bytes start with one complete frame whose length field is within bounds. */
  ghost predicate WholeFrame(version: u16, bytes: seq<byte>) {
    && |bytes| >= 8
    && (if version >= 3 then 22 else 18) <= Four(bytes, 0) <= 0x100_0000
    && |bytes| >= 8 + Four(bytes, 0)
  }

  ghost predicate ChecksumHolds(codec: Codec, bytes: seq<byte>)
    requires |bytes| >= 8 && |bytes| >= 8 + Four(bytes, 0)
  {
    codec.crc(bytes[4..4 + Four(bytes, 0)]) == Four(bytes, 4 + Four(bytes, 0))
  }

  lemma FrameLength(version: u16, bytes: seq<byte>)
    requires |bytes| >= 4
    ensures U32At(bytes, 0) == Four(bytes, 0)
    ensures MinBodyLen(version) == if version >= 3 then 22 else 18
  {
    hide FromLE, Pow256;
    NumbersAt(bytes, 0);
  }

  /** A record is accepted exactly when its frame is whole, its checksum is that of its body
      and its seq exceeds the last one; it is then the record the body says. */
  lemma AcceptedExactly(codec: Codec, version: u16, last: Option<u64>, bytes: seq<byte>, r: Record, rest: seq<byte>)
    ensures ReadRecord(codec, version, last, bytes) == Got(r, rest)
       <==> && WholeFrame(version, bytes) && ChecksumHolds(codec, bytes)
            && BodySays(version, bytes[4..4 + Four(bytes, 0)], r)
            && (last.Some? ==> last.value < r.seqNo)
            && rest == bytes[8 + Four(bytes, 0)..]
  {
    hide FromLE, Pow256, U32At, Four, DecodeBody, BodySays, MinBodyLen;
    if |bytes| >= 4 {
      FrameLength(version, bytes);
      if WholeFrame(version, bytes) {
        var len := Four(bytes, 0);
        NumbersAt(bytes, 4 + len);
        BodyIsRead(version, bytes[4..4 + len], r);
      }
    }
  }

  /** Every refusal has its cause: a length past 16 MiB, a frame cut short or too short for its
      fields, a wrong checksum, or a seq that does not increase. Nothing else is refused. */
  lemma RefusedExactly(codec: Codec, version: u16, last: Option<u64>, bytes: seq<byte>)
    ensures var read := ReadRecord(codec, version, last, bytes);
            && (read == End <==> bytes == [])
            && (read == Bad(Truncated) <==>
                  bytes != [] && !WholeFrame(version, bytes) && (|bytes| < 4 || Four(bytes, 0) <= 0x100_0000))
            && (forall n :: read == Bad(BodyTooLarge(n)) <==> |bytes| >= 4 && n == Four(bytes, 0) > 0x100_0000)
            && (forall n :: read == Bad(ChecksumMismatch(n)) <==>
                  WholeFrame(version, bytes) && !ChecksumHolds(codec, bytes) && n == Eight(bytes, 4))
            && (forall n, p :: read == Bad(NonMonotonicSequence(n, p)) <==>
                  && WholeFrame(version, bytes) && ChecksumHolds(codec, bytes)
                  && n == Eight(bytes, 4) <= p && last == Some(p))
  {
    hide FromLE, Pow256, U32At, DecodeBody, MinBodyLen, Four, Eight;
    if |bytes| >= 4 {
      FrameLength(version, bytes);
      if WholeFrame(version, bytes) {
        var len := Four(bytes, 0);
        NumbersAt(bytes, 4 + len);
        SeqAt(version, bytes);
      }
    }
  }

  lemma SeqAt(version: u16, bytes: seq<byte>)
    requires WholeFrame(version, bytes)
    ensures |bytes[4..4 + Four(bytes, 0)]| >= MinBodyLen(version)
    ensures DecodeBody(version, bytes[4..4 + Four(bytes, 0)]).seqNo == Eight(bytes, 4)
  {
    hide FromLE, Pow256, FromU16, Four, Numbered;
    var body := bytes[4..4 + Four(bytes, 0)];
    NumbersAt(bytes, 4);
    NumbersAt(body, 0);
    assert body[0..8] == bytes[4..12];
  }

  // ---- What is written ------------------------------------------------------------------------------

  lemma TwoIn(a: seq<byte>, mid: seq<byte>, z: seq<byte>)
    requires |mid| == 2
    ensures Two(a + (mid + z), |a|) == Two(mid, 0)
  {
    assert (a + (mid + z))[|a|] == mid[0] && (a + (mid + z))[|a| + 1] == mid[1];
  }

  lemma FourIn(a: seq<byte>, mid: seq<byte>, z: seq<byte>)
    requires |mid| == 4
    ensures Four(a + (mid + z), |a|) == Four(mid, 0)
  {
    var all := a + (mid + z);
    assert all[|a|] == mid[0] && all[|a| + 1] == mid[1] && all[|a| + 2] == mid[2] && all[|a| + 3] == mid[3];
  }

  /** A written frame: the body's length, the body, the body's checksum; the body holds the
      seq, the time, the tid or 0, the kind's number and the payload. */
  lemma FrameWritten(codec: Codec, seqNo: u64, e: Event)
    requires KindSurvives(e.kind) && |e.payload| + 22 <= 0x100_0000
    ensures var frame := Frame(codec, seqNo, e);
            && |frame| == 30 + |e.payload| && Four(frame, 0) == 22 + |e.payload|
            && ChecksumHolds(codec, frame)
            && BodySays(3, frame[4..26 + |e.payload|], Record(seqNo, Stored(e)))
  {
    hide FromLE, LE, Pow256, U32At, Four, DecodeBody, BodySays, EncodeBody, Numbered;
    var body := EncodeBody(seqNo, e);
    BodyRoundTrip(seqNo, e);
    BodyIsRead(3, body, Record(seqNo, Stored(e)));
    var length, sum := LE(|body|, 4), LE(codec.crc(body), 4);
    var frame := Frame(codec, seqNo, e);
    FourIn([], length, body + sum);
    assert frame == [] + (length + (body + sum));
    Written(|body|);
    assert frame == (length + body) + (sum + []);
    FourIn(length + body, sum, []);
    Written(codec.crc(body));
    assert frame[4..26 + |e.payload|] == body;
  }

  /** A written header: the magic number, version 3, the header's length, the command line. */
  lemma HeaderWritten(extra: seq<byte>)
    ensures var header := Header(extra);
            && |header| == 12 + |extra| && header[..8] == ['M' as int, 'S' as int, 'C' as int, 'O' as int,
                                                           'P' as int, 'E' as int, 'T' as int, 'R' as int]
            && Two(header, 8) == 3 && Two(header, 10) == (12 + |extra|) % 0x1_0000
            && header[12..] == extra
  {
    hide FromLE, LE, Pow256, Two;
    var length := (12 + |extra|) % 0x1_0000;
    Written(3);
    Written(length);
    TwoIn(MAGIC, LE(3, 2), LE(length, 2) + extra);
    TwoIn(MAGIC + LE(3, 2), LE(length, 2), extra);
    assert Header(extra) == (MAGIC + LE(3, 2)) + (LE(length, 2) + extra);
  }

  // ---- The header read ----------------------------------------------------------------------------------

  /** A string field: its length in bytes, then its UTF-8. */
  ghost predicate StringAt(codec: Codec, b: seq<byte>, at: nat, s: seq<byte>) {
    && at + 4 + |s| <= |b| && Four(b, at) == |s| && b[at + 4..at + 4 + |s|] == s && codec.utf8(s)
  }

  ghost predicate StringsAt(codec: Codec, b: seq<byte>, at: nat, args: seq<seq<byte>>)
    decreases |args|
  {
    args == [] || (StringAt(codec, b, at, args[0]) && StringsAt(codec, b, at + 4 + |args[0]|, args[1..]))
  }

  /** The program, the number of arguments, the arguments. */
  ghost predicate CmdlineAt(codec: Codec, b: seq<byte>, c: Cmdline) {
    && StringAt(codec, b, 0, c.program)
    && 8 + |c.program| <= |b| && Four(b, 4 + |c.program|) == |c.args|
    && StringsAt(codec, b, 8 + |c.program|, c.args)
  }

  lemma StringIsRead(codec: Codec, b: seq<byte>, at: nat, s: seq<byte>)
    ensures ReadStr(codec, b, at) == Some((s, at + 4 + |s|)) <==> StringAt(codec, b, at, s)
    ensures ReadStr(codec, b, at).Some? ==> StringAt(codec, b, at, ReadStr(codec, b, at).value.0)
  {
    hide FromLE, Four;
    if at + 4 <= |b| {
      FromFour(b[at..at + 4]);
      FourSlice(b, at);
    }
  }

  lemma FourSlice(b: seq<byte>, at: nat)
    requires at + 4 <= |b|
    ensures Four(b[at..at + 4], 0) == Four(b, at)
  {
  }

  lemma CountIsRead(b: seq<byte>, at: nat)
    ensures ReadU32(b, at) == if at + 4 <= |b| then Some((Four(b, at), at + 4)) else None
  {
    hide FromLE, Four;
    if at + 4 <= |b| {
      FromFour(b[at..at + 4]);
      FourSlice(b, at);
    }
  }

  lemma {:induction false} StringsAreRead(codec: Codec, b: seq<byte>, at: nat, args: seq<seq<byte>>)
    ensures (DecodeArgs(codec, b, at, |args|).Some? && DecodeArgs(codec, b, at, |args|).value.0 == args)
       <==> StringsAt(codec, b, at, args)
    decreases |args|
  {
    hide ReadStr, StringAt;
    if args != [] {
      StringIsRead(codec, b, at, args[0]);
      StringsAreRead(codec, b, at + 4 + |args[0]|, args[1..]);
      var first := ReadStr(codec, b, at);
      if first.Some? {
        StringEnds(codec, b, at);
        var more := DecodeArgs(codec, b, first.value.1, |args| - 1);
        if more.Some? {
          ArgsCons(first.value.0, more.value.0, args);
        }
      }
    }
  }

  lemma StringEnds(codec: Codec, b: seq<byte>, at: nat)
    requires ReadStr(codec, b, at).Some?
    ensures ReadStr(codec, b, at).value.1 == at + 4 + |ReadStr(codec, b, at).value.0|
  {
  }

  lemma ArgsCons(s: seq<byte>, more: seq<seq<byte>>, args: seq<seq<byte>>)
    requires args != []
    ensures [s] + more == args <==> s == args[0] && more == args[1..]
  {
    assert [s] + more == args ==> more == ([s] + more)[1..];
  }

  lemma {:induction false} ArgsCount(codec: Codec, b: seq<byte>, at: nat, count: nat)
    requires DecodeArgs(codec, b, at, count).Some?
    ensures |DecodeArgs(codec, b, at, count).value.0| == count
    decreases count
  {
    hide ReadStr;
    if count > 0 {
      ArgsCount(codec, b, ReadStr(codec, b, at).value.1, count - 1);
    }
  }

  /** A command line is decoded exactly when the bytes spell it. */
  lemma CmdlineIsRead(codec: Codec, b: seq<byte>, c: Cmdline)
    ensures DecodeCmdline(codec, b) == Some(c) <==> CmdlineAt(codec, b, c)
  {
    hide ReadStr, ReadU32, Four, StringAt, StringsAt, DecodeArgs;
    StringIsRead(codec, b, 0, c.program);
    var program := ReadStr(codec, b, 0);
    if program.Some? {
      StringEnds(codec, b, 0);
      var at := program.value.1;
      CountIsRead(b, at);
      if ReadU32(b, at).Some? {
        var count := ReadU32(b, at).value.0;
        StringsAreRead(codec, b, at + 4, c.args);
        if DecodeArgs(codec, b, at + 4, count).Some? {
          ArgsCount(codec, b, at + 4, count);
        }
      }
    }
  }

  /** Where the records start: past a header no shorter than 12 bytes. */
  function BodyStart(bytes: seq<byte>): nat
    requires |bytes| >= 12
  {
    if Two(bytes, 10) < 12 then 12 else Two(bytes, 10)
  }

  /** A trace opens exactly when it has the magic number, a version up to 3, a complete header
      and, from version 2 on, a command line spelt in whatever follows the first 12 bytes. */
  lemma OpensExactly(codec: Codec, bytes: seq<byte>, o: Opened)
    ensures Open(codec, bytes) == Ok(o)
       <==> && |bytes| >= 12 && bytes[..8] == ['M' as int, 'S' as int, 'C' as int, 'O' as int,
                                               'P' as int, 'E' as int, 'T' as int, 'R' as int]
            && o.version == Two(bytes, 8) <= 3 && |bytes| >= BodyStart(bytes)
            && o.rest == bytes[BodyStart(bytes)..]
            && (if o.version >= 2 && BodyStart(bytes) > 12
                then o.cmdline.Some? && CmdlineAt(codec, bytes[12..BodyStart(bytes)], o.cmdline.value)
                else o.cmdline.None?)
  {
    hide FromLE, Two, U16At, DecodeCmdline, CmdlineAt;
    if |bytes| >= 12 {
      NumbersAt(bytes, 8);
      NumbersAt(bytes, 10);
      if |bytes| >= BodyStart(bytes) {
        var buf := bytes[12..BodyStart(bytes)];
        forall c: Cmdline ensures DecodeCmdline(codec, buf) == Some(c) <==> CmdlineAt(codec, buf, c) {
          CmdlineIsRead(codec, buf, c);
        }
      }
    }
  }
}
