/** Writing and reading whole traces: header, framed records, checks, truncation. */
module TraceLog {
  import opened Common
  import opened TraceFormat

  const MAGIC: seq<byte> := [0x4D, 0x53, 0x43, 0x4F, 0x50, 0x45, 0x54, 0x52]  // "MSCOPETR"

  datatype TraceError =
    | BadMagic
    | UnsupportedVersion(found: u16)
    | ChecksumMismatch(seqNo: u64)
    | Truncated
    | BodyTooLarge(length: nat)
    | MalformedHeader
    | NonMonotonicSequence(seqFound: u64, previous: u64)

  // ---- Writing -----------------------------------------------------------------

  function Header(extra: seq<byte>): seq<byte> {
    MAGIC + (LE(FORMAT_VERSION, 2) + (LE((BASE_HEADER_LEN + |extra|) % 0x1_0000, 2) + extra))
  }

  function Frame(codec: Codec, seqNo: u64, e: Event): seq<byte> {
    var body := EncodeBody(seqNo, e);
    LE(|body| % 0x1_0000_0000, 4) + (body + LE(codec.crc(body), 4))
  }

  /** The frames of a list of events numbered from `first`. */
  function Frames(codec: Codec, first: nat, events: seq<Event>): seq<byte>
    requires first + |events| <= U64_MAX
    decreases |events|
  {
    if events == [] then [] else Frame(codec, first, events[0]) + Frames(codec, first + 1, events[1..])
  }

  lemma {:induction false} FramesAppend(codec: Codec, first: nat, events: seq<Event>, e: Event)
    requires first + |events| + 1 <= U64_MAX
    ensures Frames(codec, first, events + [e])
         == Frames(codec, first, events) + Frame(codec, first + |events|, e)
    decreases |events|
  {
    hide Frame;
    if events == [] {
      assert events + [e] == [e] && [e][1..] == [];
    } else {
      assert (events + [e])[1..] == events[1..] + [e];
      FramesAppend(codec, first + 1, events[1..], e);
    }
  }

  /** The append-only writer; it owns the global sequence counter. */
  class TraceWriter {
    const codec: Codec
    var sink: seq<byte>
    var nextSeq: nat
    ghost var header: seq<byte>
    ghost var written: seq<Event>

    ghost predicate Valid()
      reads this
    {
      nextSeq == |written| <= U64_MAX && sink == header + Frames(codec, 0, written)
    }

    constructor (codec: Codec, cmdline: Option<Cmdline>)
      ensures Valid() && written == [] && this.codec == codec
      ensures header == Header(if cmdline.Some? then EncodeCmdline(cmdline.value) else [])
    {
      var extra := if cmdline.Some? then EncodeCmdline(cmdline.value) else [];
      this.codec := codec;
      sink := Header(extra);
      nextSeq := 0;
      header := Header(extra);
      written := [];
    }

    method Append(e: Event) returns (seqNo: u64)
      requires Valid() && nextSeq < U64_MAX
      modifies this
      ensures Valid() && written == old(written) + [e] && seqNo == |old(written)| && header == old(header)
    {
      hide Frame, Frames, EncodeBody, LE, Header;
      seqNo := nextSeq;
      var body := EncodeBody(seqNo, e);
      var length, sum := LE(|body| % 0x1_0000_0000, 4), LE(codec.crc(body), 4);
      FramesAppend(codec, 0, written, e);
      FrameParts(codec, seqNo, e);
      Stacked(header, Frames(codec, 0, written), length, body, sum);
      sink := sink + length;
      sink := sink + body;
      sink := sink + sum;
      nextSeq := seqNo + 1;
      written := written + [e];
    }
  }

  lemma Stacked(a: seq<byte>, b: seq<byte>, c: seq<byte>, d: seq<byte>, e: seq<byte>)
    ensures a + b + c + d + e == a + (b + (c + (d + e)))
  {
  }

  lemma FrameParts(codec: Codec, seqNo: u64, e: Event)
    ensures var body := EncodeBody(seqNo, e);
            Frame(codec, seqNo, e) == LE(|body| % 0x1_0000_0000, 4) + (body + LE(codec.crc(body), 4))
  {
  }

  // ---- Reading -----------------------------------------------------------------

  /** What is left after the header, with the version and the command line it held. */
  datatype Opened = Opened(version: u16, cmdline: Option<Cmdline>, rest: seq<byte>)

  function Open(codec: Codec, bytes: seq<byte>): Result<Opened, TraceError> {
    if |bytes| < BASE_HEADER_LEN || bytes[..8] != MAGIC then Err(BadMagic)
    else
      var version := U16At(bytes, 8);
      if version > FORMAT_VERSION then Err(UnsupportedVersion(version))
      else
        var headerLen := U16At(bytes, 10);
        var extra := if headerLen < BASE_HEADER_LEN then 0 else headerLen - BASE_HEADER_LEN;
        if |bytes| < BASE_HEADER_LEN + extra then Err(Truncated)
        else
          var buf := bytes[BASE_HEADER_LEN..BASE_HEADER_LEN + extra];
          var rest := bytes[BASE_HEADER_LEN + extra..];
          if version >= CMDLINE_MIN_VERSION && buf != [] then
            match DecodeCmdline(codec, buf)
            case None => Err(MalformedHeader)
            case Some(c) => Ok(Opened(version, Some(c), rest))
          else Ok(Opened(version, None, rest))
  }

  /** One attempt to read a record: the stream ended cleanly, a record, or an error. */
  datatype Read = End | Got(record: Record, rest: seq<byte>) | Bad(error: TraceError)

  function ReadRecord(codec: Codec, version: u16, last: Option<u64>, bytes: seq<byte>): (r: Read)
    ensures r.Got? ==> |r.rest| < |bytes|
    ensures r.Got? && last.Some? ==> last.value < r.record.seqNo
  {
    if bytes == [] then End
    else if |bytes| < 4 then Bad(Truncated)
    else
      var len := U32At(bytes, 0);
      if len < MinBodyLen(version) then Bad(Truncated)
      else if len > MAX_BODY_LEN then Bad(BodyTooLarge(len))
      else if |bytes| < 8 + len then Bad(Truncated)
      else
        var body := bytes[4..4 + len];
        var record := DecodeBody(version, body);
        if codec.crc(body) != U32At(bytes, 4 + len) then Bad(ChecksumMismatch(record.seqNo))
        else if last.Some? && record.seqNo <= last.value then Bad(NonMonotonicSequence(record.seqNo, last.value))
        else Got(record, bytes[8 + len..])
  }

  /** Iterating to the end: the records, and the one error that ended it, if any. */
  function ReadAll(codec: Codec, version: u16, last: Option<u64>, bytes: seq<byte>): (seq<Record>, Option<TraceError>)
    decreases |bytes|
  {
    match ReadRecord(codec, version, last, bytes)
    case End => ([], None)
    case Bad(e) => ([], Some(e))
    case Got(r, rest) =>
      var (more, error) := ReadAll(codec, version, Some(r.seqNo), rest);
      ([r] + more, error)
  }

  ghost predicate Increasing(last: Option<u64>, records: seq<Record>) {
    && (forall i, j :: 0 <= i < j < |records| ==> records[i].seqNo < records[j].seqNo)
    && (last.Some? ==> forall i :: 0 <= i < |records| ==> last.value < records[i].seqNo)
  }

  lemma IncreasingCons(last: Option<u64>, r: Record, more: seq<Record>)
    requires Increasing(Some(r.seqNo), more) && (last.Some? ==> last.value < r.seqNo)
    ensures Increasing(last, [r] + more)
  {
  }

  /** On any bytes whatever, the records accepted have strictly increasing seqs. */
  lemma {:induction false} AcceptedSeqsIncrease(codec: Codec, version: u16, last: Option<u64>, bytes: seq<byte>)
    ensures Increasing(last, ReadAll(codec, version, last, bytes).0)
    decreases |bytes|
  {
    hide ReadRecord;
    match ReadRecord(codec, version, last, bytes)
    case End =>
    case Bad(_) =>
    case Got(r, rest) =>
      AcceptedSeqsIncrease(codec, version, Some(r.seqNo), rest);
      IncreasingCons(last, r, ReadAll(codec, version, Some(r.seqNo), rest).0);
  }

  datatype ReadOutcome = Full | Partial | Eof

  /** The iterator. Reads may come back short, in any pieces. */
  class TraceReader {
    const codec: Codec
    const version: u16
    const cmdline: Option<Cmdline>
    var inner: seq<byte>
    var lastSeq: Option<u64>
    var poisoned: bool

    constructor (codec: Codec, from: Opened)
      ensures this.codec == codec && version == from.version && cmdline == from.cmdline
      ensures inner == from.rest && lastSeq == None && !poisoned
    {
      this.codec := codec;
      version, cmdline := from.version, from.cmdline;
      inner, lastSeq, poisoned := from.rest, None, false;
    }

    /** Fill a buffer of `want` bytes however the stream delivers them. */
    method ReadExactOrEof(want: nat) returns (outcome: ReadOutcome, buf: seq<byte>)
      modifies this`inner
      ensures outcome == if |old(inner)| >= want then Full else if old(inner) == [] then Eof else Partial
      ensures outcome.Full? ==> buf == old(inner)[..want] && inner == old(inner)[want..]
    {
      buf := [];
      while |buf| < want
        invariant |buf| <= want && buf + inner == old(inner)
        decreases want - |buf|
      {
        if inner == [] {
          return if buf == [] then Eof else Partial, buf;
        }
        var n :| 1 <= n <= want - |buf| && n <= |inner|;
        buf, inner := buf + inner[..n], inner[n..];
      }
      outcome := Full;
    }

    /** `read_record`, consuming from the stream. */
    method ReadOne() returns (r: Result<Option<Record>, TraceError>)
      modifies this`inner, this`lastSeq
      ensures match ReadRecord(codec, version, old(lastSeq), old(inner))
              case End => r == Ok(None) && inner == old(inner) == [] && lastSeq == old(lastSeq)
              case Bad(e) => r == Err(e)
              case Got(record, rest) => r == Ok(Some(record)) && inner == rest && lastSeq == Some(record.seqNo)
    {
      ghost var all := inner;
      var head, lenBuf := ReadExactOrEof(4);
      if head.Eof? {
        inner := [];
        return Ok(None);
      }
      if head.Partial? {
        return Err(Truncated);
      }
      var len := U32At(lenBuf, 0);
      assert all[0..4] == lenBuf[0..4];
      if len < MinBodyLen(version) {
        return Err(Truncated);
      }
      if len > MAX_BODY_LEN {
        return Err(BodyTooLarge(len));
      }
      var got, body := ReadExactOrEof(len);
      if !got.Full? {
        return Err(Truncated);
      }
      assert body == all[4..4 + len] && inner == all[4 + len..];
      var sum, crcBuf := ReadExactOrEof(4);
      if !sum.Full? {
        return Err(Truncated);
      }
      assert crcBuf[0..4] == all[4 + len..8 + len] && inner == all[8 + len..];
      var record := DecodeBody(version, body);
      if codec.crc(body) != U32At(crcBuf, 0) {
        return Err(ChecksumMismatch(record.seqNo));
      }
      if lastSeq.Some? && record.seqNo <= lastSeq.value {
        return Err(NonMonotonicSequence(record.seqNo, lastSeq.value));
      }
      lastSeq := Some(record.seqNo);
      return Ok(Some(record));
    }

    /** The iterator's `next`: an error is reported once, and nothing after it. */
    method Next() returns (item: Option<Result<Record, TraceError>>)
      modifies this
      ensures old(poisoned) ==> item.None? && poisoned
      ensures !old(poisoned) ==>
                match ReadRecord(codec, version, old(lastSeq), old(inner))
                case End => item.None? && !poisoned && inner == []
                case Bad(e) => item == Some(Err(e)) && poisoned
                case Got(record, rest) =>
                  item == Some(Ok(record)) && !poisoned && inner == rest && lastSeq == Some(record.seqNo)
    {
      if poisoned {
        return None;
      }
      var r := ReadOne();
      if r.Err? {
        poisoned := true;
        return Some(Err(r.error));
      }
      if r.value.None? {
        return None;
      }
      return Some(Ok(r.value.value));
    }

    /** Collecting the iterator. */
    method Collect() returns (records: seq<Record>, error: Option<TraceError>)
      requires !poisoned
      modifies this
      ensures (records, error) == ReadAll(codec, version, old(lastSeq), old(inner))
    {
      hide ReadRecord;
      records, error := [], None;
      ghost var whole := ReadAll(codec, version, lastSeq, inner);
      while true
        invariant !poisoned && error.None?
        invariant whole.0 == records + ReadAll(codec, version, lastSeq, inner).0
        invariant whole.1 == ReadAll(codec, version, lastSeq, inner).1
        decreases |inner|
      {
        var item := Next();
        if item.None? {
          assert records + [] == records;
          return;
        }
        if item.value.Err? {
          error := Some(item.value.error);
          assert records + [] == records;
          return;
        }
        ghost var tail := ReadAll(codec, version, lastSeq, inner).0;
        assert records + ([item.value.value] + tail) == (records + [item.value.value]) + tail;
        records := records + [item.value.value];
      }
    }
  }
}
