/** The byte format of the trace log: numbers, command line, record bodies. */
module TraceFormat {
  import opened Common

  // ---- Little-endian numbers --------------------------------------------------

  function Pow256(w: nat): (p: nat)
    ensures p >= 1
  {
    if w == 0 then 1 else 256 * Pow256(w - 1)
  }

  lemma PowValues()
    ensures Pow256(2) == 0x1_0000 && Pow256(4) == 0x1_0000_0000 && Pow256(8) == 0x1_0000_0000_0000_0000
  {
    assert Pow256(4) == 0x1_0000 * Pow256(2);
    assert Pow256(6) == 0x1_0000 * Pow256(4);
    assert Pow256(8) == 0x1_0000 * Pow256(6);
  }

  /** The low `width` bytes of `n`, least significant first. */
  function LE(n: nat, width: nat): (s: seq<byte>)
    ensures |s| == width
  {
    if width == 0 then [] else [n % 256] + LE(n / 256, width - 1)
  }

  function FromLE(s: seq<byte>): nat {
    if s == [] then 0 else s[0] + 256 * FromLE(s[1..])
  }

  lemma {:induction false} LERoundTrip(n: nat, width: nat)
    requires n < Pow256(width)
    ensures FromLE(LE(n, width)) == n
    decreases width
  {
    if width > 0 {
      LERoundTrip(n / 256, width - 1);
      assert LE(n, width)[1..] == LE(n / 256, width - 1);
    }
  }

  lemma {:induction false} FromLEBounded(s: seq<byte>)
    ensures FromLE(s) < Pow256(|s|)
  {
    if s != [] {
      FromLEBounded(s[1..]);
    }
  }

  // ---- The embedded command line ------------------------------------------------

  /** Parts of the environment the format relies on: the checksum and UTF-8 validity. */
  datatype Codec = Codec(crc: seq<byte> -> u32, utf8: seq<byte> -> bool)

  /** Strings are their UTF-8 bytes. */
  datatype Cmdline = Cmdline(program: seq<byte>, args: seq<seq<byte>>)

  ghost predicate ValidCmdline(codec: Codec, c: Cmdline) {
    codec.utf8(c.program) && forall i :: 0 <= i < |c.args| ==> codec.utf8(c.args[i])
  }

  function EncodeStr(s: seq<byte>): seq<byte> {
    LE(|s| % 0x1_0000_0000, 4) + s
  }

  function EncodeArgs(args: seq<seq<byte>>): seq<byte> {
    if args == [] then [] else EncodeStr(args[0]) + EncodeArgs(args[1..])
  }

  function EncodeCmdline(c: Cmdline): seq<byte> {
    EncodeStr(c.program) + (LE(|c.args| % 0x1_0000_0000, 4) + EncodeArgs(c.args))
  }

  function ReadU32(buf: seq<byte>, pos: nat): (r: Option<(nat, nat)>)
    ensures r.Some? ==> r.value.1 == pos + 4 <= |buf|
  {
    if pos + 4 > |buf| then None else Some((FromLE(buf[pos..pos + 4]), pos + 4))
  }

  function ReadStr(codec: Codec, buf: seq<byte>, pos: nat): (r: Option<(seq<byte>, nat)>)
    ensures r.Some? ==> r.value.1 == pos + 4 + |r.value.0| <= |buf|
  {
    match ReadU32(buf, pos)
    case None => None
    case Some((len, at)) =>
      if at + len > |buf| || !codec.utf8(buf[at..at + len]) then None
      else Some((buf[at..at + len], at + len))
  }

  function DecodeArgs(codec: Codec, buf: seq<byte>, pos: nat, count: nat): Option<(seq<seq<byte>>, nat)>
    decreases count
  {
    if count == 0 then Some(([], pos))
    else match ReadStr(codec, buf, pos)
      case None => None
      case Some((arg, at)) =>
        match DecodeArgs(codec, buf, at, count - 1)
        case None => None
        case Some((more, end)) => Some(([arg] + more, end))
  }

  /** `None` is a malformed header; bytes after the last argument are ignored. */
  function DecodeCmdline(codec: Codec, buf: seq<byte>): Option<Cmdline> {
    match ReadStr(codec, buf, 0)
    case None => None
    case Some((program, p1)) =>
      match ReadU32(buf, p1)
      case None => None
      case Some((count, p2)) =>
        match DecodeArgs(codec, buf, p2, count)
        case None => None
        case Some((args, _)) => Some(Cmdline(program, args))
  }

  lemma {:induction false} DecodeArgsStep(codec: Codec, buf: seq<byte>, pos: nat, done: nat, count: nat,
                                          args: seq<seq<byte>>, at: nat)
    requires done < count && DecodeArgs(codec, buf, pos, done) == Some((args, at))
    ensures DecodeArgs(codec, buf, pos, count).Some? ==> ReadStr(codec, buf, at).Some?
    ensures match ReadStr(codec, buf, at)
            case None => DecodeArgs(codec, buf, pos, done + 1).None?
            case Some((arg, end)) => DecodeArgs(codec, buf, pos, done + 1) == Some((args + [arg], end))
    decreases done
  {
    if done > 0 {
      var (first, mid) := ReadStr(codec, buf, pos).value;
      var rest := DecodeArgs(codec, buf, mid, done - 1).value;
      DecodeArgsStep(codec, buf, mid, done - 1, count - 1, rest.0, at);
      match ReadStr(codec, buf, at)
      case None =>
      case Some((arg, end)) => assert [first] + (rest.0 + [arg]) == args + [arg];
    } else {
      match ReadStr(codec, buf, at)
      case None =>
      case Some((arg, end)) => assert [arg] + [] == args + [arg];
    }
  }

  /** The decoder's loop, advancing one position over the header bytes. */
  method DecodeCmdlineBytes(codec: Codec, buf: seq<byte>) returns (r: Option<Cmdline>)
    ensures r == DecodeCmdline(codec, buf)
  {
    var program := ReadStr(codec, buf, 0);
    if program.None? {
      return None;
    }
    var count := ReadU32(buf, program.value.1);
    if count.None? {
      return None;
    }
    var start, total := count.value.1, count.value.0;
    var args: seq<seq<byte>>, pos, i := [], start, 0;
    while i < total
      invariant 0 <= i <= total && DecodeArgs(codec, buf, start, i) == Some((args, pos))
    {
      DecodeArgsStep(codec, buf, start, i, total, args, pos);
      var arg := ReadStr(codec, buf, pos);
      if arg.None? {
        return None;
      }
      args, pos := args + [arg.value.0], arg.value.1;
      i := i + 1;
    }
    return Some(Cmdline(program.value.0, args));
  }

  lemma ReadU32At(buf: seq<byte>, pos: nat, n: nat, post: seq<byte>)
    requires pos <= |buf| && buf[pos..] == LE(n, 4) + post && n < 0x1_0000_0000
    ensures ReadU32(buf, pos) == Some((n, pos + 4)) && buf[pos + 4..] == post
  {
    PowValues();
    LERoundTrip(n, 4);
    assert buf[pos..pos + 4] == buf[pos..][..4] == LE(n, 4);
    assert buf[pos + 4..] == buf[pos..][4..] == post;
  }

  lemma ReadStrAt(codec: Codec, buf: seq<byte>, pos: nat, s: seq<byte>, post: seq<byte>)
    requires pos <= |buf| && buf[pos..] == EncodeStr(s) + post && |s| < 0x1_0000_0000 && codec.utf8(s)
    ensures ReadStr(codec, buf, pos) == Some((s, pos + 4 + |s|)) && buf[pos + 4 + |s|..] == post
  {
    assert EncodeStr(s) + post == LE(|s|, 4) + (s + post);
    ReadU32At(buf, pos, |s|, s + post);
    var at := pos + 4;
    assert buf[at..at + |s|] == buf[at..][..|s|] == s;
    assert buf[at + |s|..] == buf[at..][|s|..] == post;
  }

  lemma {:induction false} DecodeArgsAt(codec: Codec, buf: seq<byte>, pos: nat, args: seq<seq<byte>>, post: seq<byte>)
    requires pos <= |buf| && buf[pos..] == EncodeArgs(args) + post
    requires forall i :: 0 <= i < |args| ==> codec.utf8(args[i]) && |args[i]| < 0x1_0000_0000
    ensures DecodeArgs(codec, buf, pos, |args|).Some? && DecodeArgs(codec, buf, pos, |args|).value.0 == args
    decreases |args|
  {
    if args != [] {
      assert EncodeArgs(args) + post == EncodeStr(args[0]) + (EncodeArgs(args[1..]) + post);
      ReadStrAt(codec, buf, pos, args[0], EncodeArgs(args[1..]) + post);
      DecodeArgsAt(codec, buf, pos + 4 + |args[0]|, args[1..], post);
    }
  }

  lemma {:induction false} ArgsFit(args: seq<seq<byte>>)
    ensures |EncodeArgs(args)| >= 4 * |args|
    ensures forall i :: 0 <= i < |args| ==> |args[i]| < |EncodeArgs(args)|
    decreases |args|
  {
    if args != [] {
      ArgsFit(args[1..]);
    }
  }

  lemma Regroup(a: seq<byte>, b: seq<byte>, c: seq<byte>, d: seq<byte>)
    ensures (a + (b + c)) + d == a + (b + (c + d))
  {
  }

  /** A command line whose encoding fits the header survives it, whatever
      reserved bytes follow. */
  lemma CmdlineRoundTrip(codec: Codec, c: Cmdline, reserved: seq<byte>)
    requires ValidCmdline(codec, c) && |EncodeCmdline(c)| < 0x1_0000_0000
    ensures DecodeCmdline(codec, EncodeCmdline(c) + reserved) == Some(c)
  {
    hide LE, EncodeArgs, FromLE, ReadStr, ReadU32, DecodeArgs;
    var buf := EncodeCmdline(c) + reserved;
    var tail := LE(|c.args|, 4) + (EncodeArgs(c.args) + reserved);
    ArgsFit(c.args);
    assert |c.program| + |c.args| < 0x1_0000_0000;
    Regroup(EncodeStr(c.program), LE(|c.args|, 4), EncodeArgs(c.args), reserved);
    hide EncodeStr;
    assert buf[0..] == buf;
    ReadStrAt(codec, buf, 0, c.program, tail);
    ReadU32At(buf, 4 + |c.program|, |c.args|, EncodeArgs(c.args) + reserved);
    DecodeArgsAt(codec, buf, 8 + |c.program|, c.args, reserved);
  }

  lemma {:induction false} DecodedArgsLength(codec: Codec, buf: seq<byte>, pos: nat, count: nat)
    requires pos <= |buf| && DecodeArgs(codec, buf, pos, count).Some?
    ensures var (args, end) := DecodeArgs(codec, buf, pos, count).value;
            end == pos + |EncodeArgs(args)| <= |buf|
    decreases count
  {
    if count > 0 {
      var (arg, at) := ReadStr(codec, buf, pos).value;
      DecodedArgsLength(codec, buf, at, count - 1);
      var more := DecodeArgs(codec, buf, at, count - 1).value.0;
      assert ([arg] + more)[1..] == more;
    }
  }

  /** No command line is ever decoded from fewer bytes than its encoding has. */
  lemma DecodedFits(codec: Codec, buf: seq<byte>, c: Cmdline)
    requires DecodeCmdline(codec, buf) == Some(c)
    ensures |EncodeCmdline(c)| <= |buf|
  {
    var (_, p1) := ReadStr(codec, buf, 0).value;
    var (count, p2) := ReadU32(buf, p1).value;
    DecodedArgsLength(codec, buf, p2, count);
  }

  // ---- Events and record bodies -----------------------------------------------------

  datatype EventKind =
    | SyscallEnterKind
    | SyscallExitKind
    | SchedSwitchKind
    | SignalKind
    | SyncAcquireKind
    | SyncReleaseKind
    | ForkKind
    | CheckpointKind
    | ThreadSpawnKind
    | ThreadExitKind
    | Unknown(raw: u16)

  function ToU16(kind: EventKind): u16 {
    match kind
    case SyscallEnterKind => 1
    case SyscallExitKind => 2
    case SchedSwitchKind => 3
    case SignalKind => 4
    case SyncAcquireKind => 5
    case SyncReleaseKind => 6
    case ForkKind => 7
    case CheckpointKind => 8
    case ThreadSpawnKind => 9
    case ThreadExitKind => 10
    case Unknown(raw) => raw
  }

  /** Every wire value is understood, and a kind survives the wire exactly unless it
      is an unknown kind that borrows a known number. */
  function FromU16(raw: u16): (kind: EventKind)
    ensures ToU16(kind) == raw
    ensures kind.Unknown? <==> !(1 <= raw <= 10)
  {
    if raw == 1 then SyscallEnterKind
    else if raw == 2 then SyscallExitKind
    else if raw == 3 then SchedSwitchKind
    else if raw == 4 then SignalKind
    else if raw == 5 then SyncAcquireKind
    else if raw == 6 then SyncReleaseKind
    else if raw == 7 then ForkKind
    else if raw == 8 then CheckpointKind
    else if raw == 9 then ThreadSpawnKind
    else if raw == 10 then ThreadExitKind
    else Unknown(raw)
  }

  datatype Event = Event(kind: EventKind, timestampNs: u64, tid: Option<u32>, payload: seq<byte>)

  datatype Record = Record(seqNo: u64, event: Event)

  const FORMAT_VERSION: u16 := 3
  const CMDLINE_MIN_VERSION: u16 := 2
  const TID_MIN_VERSION: u16 := 3
  const BASE_HEADER_LEN: nat := 12
  const BODY_PREFIX_LEN: nat := 18
  const BODY_PREFIX_LEN_V3: nat := 22
  const MAX_BODY_LEN: nat := 16 * 1024 * 1024

  function MinBodyLen(version: u16): nat {
    if version >= TID_MIN_VERSION then BODY_PREFIX_LEN_V3 else BODY_PREFIX_LEN
  }

  function EncodeBody(seqNo: u64, e: Event): (body: seq<byte>)
    ensures |body| == BODY_PREFIX_LEN_V3 + |e.payload|
  {
    LE(seqNo, 8) + (LE(e.timestampNs, 8) + (LE(if e.tid.Some? then e.tid.value else 0, 4)
    + (LE(ToU16(e.kind), 2) + e.payload)))
  }

  function U64At(s: seq<byte>, at: nat): u64
    requires at + 8 <= |s|
  {
    FromLEBounded(s[at..at + 8]);
    PowValues();
    FromLE(s[at..at + 8])
  }

  function U32At(s: seq<byte>, at: nat): u32
    requires at + 4 <= |s|
  {
    FromLEBounded(s[at..at + 4]);
    PowValues();
    FromLE(s[at..at + 4])
  }

  function U16At(s: seq<byte>, at: nat): u16
    requires at + 2 <= |s|
  {
    FromLEBounded(s[at..at + 2]);
    PowValues();
    FromLE(s[at..at + 2])
  }

  function DecodeBody(version: u16, body: seq<byte>): Record
    requires |body| >= MinBodyLen(version)
  {
    var kindAt := if version >= TID_MIN_VERSION then 20 else 16;
    var tid := if version >= TID_MIN_VERSION then Some(U32At(body, 16)) else None;
    Record(U64At(body, 0), Event(FromU16(U16At(body, kindAt)), U64At(body, 8), tid, body[kindAt + 2..]))
  }

  /** An event as it is read back: an absent tid becomes 0. */
  function Stored(e: Event): Event {
    e.(tid := Some(if e.tid.Some? then e.tid.value else 0))
  }

  ghost predicate KindSurvives(kind: EventKind) {
    kind.Unknown? ==> !(1 <= kind.raw <= 10)
  }

  /** A body comes back as the event it was made from, exactly when its kind survives the wire. */
  lemma BodyRoundTrip(seqNo: u64, e: Event)
    ensures DecodeBody(FORMAT_VERSION, EncodeBody(seqNo, e)) == Record(seqNo, Stored(e)) <==> KindSurvives(e.kind)
    ensures DecodeBody(FORMAT_VERSION, EncodeBody(seqNo, e)).seqNo == seqNo
  {
    var body := EncodeBody(seqNo, e);
    var tid := if e.tid.Some? then e.tid.value else 0;
    PowValues();
    LERoundTrip(seqNo, 8);
    LERoundTrip(e.timestampNs, 8);
    LERoundTrip(tid, 4);
    LERoundTrip(ToU16(e.kind), 2);
    assert body[0..8] == LE(seqNo, 8);
    assert body[8..16] == LE(e.timestampNs, 8);
    assert body[16..20] == LE(tid, 4);
    assert body[20..22] == LE(ToU16(e.kind), 2);
    assert body[22..] == e.payload;
    KindRoundTrip(e.kind);
  }

  lemma KindRoundTrip(kind: EventKind)
    ensures FromU16(ToU16(kind)) == kind <==> KindSurvives(kind)
  {
  }
}
