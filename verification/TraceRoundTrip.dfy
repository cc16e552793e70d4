/** What was written is what is read, exactly when it fits the format, and a cut
    trace gives its whole records and no more. */
module TraceRoundTrip {
  import opened Common
  import opened TraceFormat
  import opened TraceLog

  // ---- The header ----------------------------------------------------------------

  lemma HeaderParts(extra: seq<byte>, rest: seq<byte>)
    ensures var bytes := Header(extra) + rest;
            && |bytes| == BASE_HEADER_LEN + |extra| + |rest| && bytes[..8] == MAGIC
            && U16At(bytes, 8) == FORMAT_VERSION && U16At(bytes, 10) == (BASE_HEADER_LEN + |extra|) % 0x1_0000
            && bytes[BASE_HEADER_LEN..] == extra + rest
  {
    var bytes := Header(extra) + rest;
    var len := (BASE_HEADER_LEN + |extra|) % 0x1_0000;
    PowValues();
    LERoundTrip(FORMAT_VERSION, 2);
    LERoundTrip(len, 2);
    assert bytes == MAGIC + (LE(FORMAT_VERSION, 2) + (LE(len, 2) + (extra + rest)));
    hide LE, FromLE;
    assert bytes[8..10] == LE(FORMAT_VERSION, 2) && bytes[10..12] == LE(len, 2);
  }

  lemma EncodedNonEmpty(c: Cmdline)
    ensures EncodeCmdline(c) != []
  {
    assert |EncodeCmdline(c)| >= 8;
  }

  /** Whatever reserved bytes a later writer adds behind the command line, the
      header opens to that command line and the records follow. */
  lemma HeaderRoundTrip(codec: Codec, c: Cmdline, reserved: seq<byte>, rest: seq<byte>)
    requires ValidCmdline(codec, c) && BASE_HEADER_LEN + |EncodeCmdline(c)| + |reserved| < 0x1_0000
    ensures Open(codec, Header(EncodeCmdline(c) + reserved) + rest) == Ok(Opened(FORMAT_VERSION, Some(c), rest))
  {
    hide Header, DecodeCmdline, EncodeCmdline, LE, FromLE;
    var extra := EncodeCmdline(c) + reserved;
    var bytes := Header(extra) + rest;
    HeaderParts(extra, rest);
    CmdlineRoundTrip(codec, c, reserved);
    EncodedNonEmpty(c);
    assert bytes[BASE_HEADER_LEN..BASE_HEADER_LEN + |extra|] == bytes[BASE_HEADER_LEN..][..|extra|] == extra;
    assert bytes[BASE_HEADER_LEN + |extra|..] == bytes[BASE_HEADER_LEN..][|extra|..] == rest;
  }

  /** The writer's header gives the command line back exactly when its encoding
      fits the 16-bit header length; past that the length is cut and the command line is lost. */
  lemma CmdlineKeptExactly(codec: Codec, c: Cmdline, rest: seq<byte>)
    requires ValidCmdline(codec, c)
    ensures (exists o :: Open(codec, Header(EncodeCmdline(c)) + rest) == Ok(o) && o.cmdline == Some(c))
       <==> BASE_HEADER_LEN + |EncodeCmdline(c)| < 0x1_0000
  {
    var enc := EncodeCmdline(c);
    var bytes := Header(enc) + rest;
    if BASE_HEADER_LEN + |enc| < 0x1_0000 {
      HeaderRoundTrip(codec, c, [], rest);
      assert enc + [] == enc;
    } else {
      HeaderParts(enc, rest);
      hide Header, DecodeCmdline, EncodeCmdline;
      forall o | Open(codec, bytes) == Ok(o) ensures o.cmdline != Some(c) {
        if o.cmdline == Some(c) {
          var headerLen := U16At(bytes, 10);
          var buf := bytes[BASE_HEADER_LEN..headerLen];
          DecodedFits(codec, buf, c);
        }
      }
    }
  }

  // ---- One record -------------------------------------------------------------------

  ghost predicate Fits(e: Event) {
    BODY_PREFIX_LEN_V3 + |e.payload| <= MAX_BODY_LEN && KindSurvives(e.kind)
  }

  lemma FrameRead(codec: Codec, seqNo: u64, e: Event, rest: seq<byte>)
    requires BODY_PREFIX_LEN_V3 + |e.payload| <= MAX_BODY_LEN
    ensures var body, bytes := EncodeBody(seqNo, e), Frame(codec, seqNo, e) + rest;
            && |Frame(codec, seqNo, e)| == 8 + |body| && |bytes| == 8 + |body| + |rest|
            && U32At(bytes, 0) == |body| && bytes[4..4 + |body|] == body
            && U32At(bytes, 4 + |body|) == codec.crc(body) && bytes[8 + |body|..] == rest
  {
    var body, bytes := EncodeBody(seqNo, e), Frame(codec, seqNo, e) + rest;
    PowValues();
    LERoundTrip(|body|, 4);
    LERoundTrip(codec.crc(body), 4);
    hide LE, FromLE, EncodeBody;
    FrameParts(codec, seqNo, e);
    hide Frame;
    FourParts(LE(|body|, 4), body, LE(codec.crc(body), 4), rest);
  }

  lemma FourParts(a: seq<byte>, b: seq<byte>, c: seq<byte>, d: seq<byte>)
    requires |a| == 4 && |c| == 4
    ensures var all := (a + (b + c)) + d;
            && |all| == 8 + |b| + |d| && all[0..4] == a && all[4..4 + |b|] == b
            && all[4 + |b|..4 + |b| + 4] == c && all[8 + |b|..] == d
  {
  }

  ghost predicate Follows(last: Option<u64>, seqNo: u64) {
    last.Some? ==> last.value < seqNo
  }

  lemma RecordReads(codec: Codec, seqNo: u64, e: Event, last: Option<u64>, rest: seq<byte>)
    requires BODY_PREFIX_LEN_V3 + |e.payload| <= MAX_BODY_LEN && Follows(last, seqNo)
    ensures ReadRecord(codec, FORMAT_VERSION, last, Frame(codec, seqNo, e) + rest)
         == Got(DecodeBody(FORMAT_VERSION, EncodeBody(seqNo, e)), rest)
  {
    FrameRead(codec, seqNo, e, rest);
    BodyRoundTrip(seqNo, e);
    hide Frame, EncodeBody, DecodeBody;
  }

  lemma GotIsBounded(codec: Codec, last: Option<u64>, bytes: seq<byte>)
    requires ReadRecord(codec, FORMAT_VERSION, last, bytes).Got?
    ensures BODY_PREFIX_LEN_V3 + |ReadRecord(codec, FORMAT_VERSION, last, bytes).record.event.payload| <= MAX_BODY_LEN
  {
  }

  /** A record is read back as written, with an absent tid as 0, exactly when its
      body is within the limit and its kind is not an unknown one under a known number. */
  lemma RecordExact(codec: Codec, seqNo: u64, e: Event, last: Option<u64>, rest: seq<byte>)
    requires Follows(last, seqNo)
    ensures var r := ReadRecord(codec, FORMAT_VERSION, last, Frame(codec, seqNo, e) + rest);
            && (r == Got(Record(seqNo, Stored(e)), rest) <==> Fits(e))
            && (!Fits(e) && r.Got? ==> r.record != Record(seqNo, Stored(e)))
  {
    hide Frame, EncodeBody, DecodeBody, ReadRecord;
    if BODY_PREFIX_LEN_V3 + |e.payload| <= MAX_BODY_LEN {
      RecordReads(codec, seqNo, e, last, rest);
      BodyRoundTrip(seqNo, e);
    } else if ReadRecord(codec, FORMAT_VERSION, last, Frame(codec, seqNo, e) + rest).Got? {
      GotIsBounded(codec, last, Frame(codec, seqNo, e) + rest);
    }
  }

  // ---- Whole traces ------------------------------------------------------------------

  /** The records a reader should see: consecutive seqs, tids defaulted. */
  function Expected(first: nat, events: seq<Event>): (records: seq<Record>)
    requires first + |events| <= U64_MAX
    ensures |records| == |events|
    ensures forall i :: 0 <= i < |events| ==> records[i] == Record(first + i, Stored(events[i]))
    decreases |events|
  {
    if events == [] then [] else [Record(first, Stored(events[0]))] + Expected(first + 1, events[1..])
  }

  function Before(first: nat): Option<u64>
    requires first <= U64_MAX
  {
    if first == 0 then None else Some(first - 1)
  }

  ghost predicate AllFit(events: seq<Event>) {
    forall i :: 0 <= i < |events| ==> Fits(events[i])
  }

  lemma CleanEnd(codec: Codec, last: Option<u64>)
    ensures ReadRecord(codec, FORMAT_VERSION, last, []) == End
  {
  }

  /** Reading the frames of a list gives the list back, numbered in order and
      ending cleanly, exactly when every event fits. */
  lemma {:induction false} RecordsExact(codec: Codec, first: nat, events: seq<Event>)
    requires first + |events| <= U64_MAX
    ensures AllFit(events) <==>
            ReadAll(codec, FORMAT_VERSION, Before(first), Frames(codec, first, events))
              == (Expected(first, events), None)
    decreases |events|
  {
    hide ReadRecord, Frame, Fits;
    var bytes := Frames(codec, first, events);
    if events == [] {
      CleanEnd(codec, Before(first));
    } else {
      var rest := Frames(codec, first + 1, events[1..]);
      RecordExact(codec, first, events[0], Before(first), rest);
      RecordsExact(codec, first + 1, events[1..]);
      assert AllFit(events) <==> Fits(events[0]) && AllFit(events[1..]) by { AllFitCons(events); }
      var got := ReadAll(codec, FORMAT_VERSION, Before(first), bytes);
      if Fits(events[0]) {
        var more := ReadAll(codec, FORMAT_VERSION, Some(first as u64), rest);
        assert got == ([Record(first, Stored(events[0]))] + more.0, more.1);
        assert got.0[1..] == more.0 && Expected(first, events)[1..] == Expected(first + 1, events[1..]);
      } else if got.0 != [] {
        assert got.0[0] != Expected(first, events)[0];
      }
    }
  }

  lemma AllFitCons(events: seq<Event>)
    requires events != []
    ensures AllFit(events) <==> Fits(events[0]) && AllFit(events[1..])
  {
    hide Fits;
    if Fits(events[0]) && AllFit(events[1..]) {
      forall i | 0 <= i < |events| ensures Fits(events[i]) {
        assert i > 0 ==> events[i] == events[1..][i - 1];
      }
    }
  }

  /** A whole trace: command line, reserved header bytes and events come back as written. */
  lemma TraceRoundTrip(codec: Codec, c: Cmdline, reserved: seq<byte>, events: seq<Event>)
    requires ValidCmdline(codec, c) && BASE_HEADER_LEN + |EncodeCmdline(c)| + |reserved| < 0x1_0000
    requires |events| <= U64_MAX && AllFit(events)
    ensures var bytes := Header(EncodeCmdline(c) + reserved) + Frames(codec, 0, events);
            && Open(codec, bytes) == Ok(Opened(FORMAT_VERSION, Some(c), Frames(codec, 0, events)))
            && ReadAll(codec, FORMAT_VERSION, None, Frames(codec, 0, events)) == (Expected(0, events), None)
  {
    hide Open, Header, ReadAll, Frames, EncodeCmdline, AllFit;
    HeaderRoundTrip(codec, c, reserved, Frames(codec, 0, events));
    RecordsExact(codec, 0, events);
  }

  // ---- Truncation --------------------------------------------------------------------

  lemma CutInFrame(codec: Codec, seqNo: u64, e: Event, last: Option<u64>, cut: nat)
    requires BODY_PREFIX_LEN_V3 + |e.payload| <= MAX_BODY_LEN && cut < |Frame(codec, seqNo, e)|
    ensures ReadRecord(codec, FORMAT_VERSION, last, Frame(codec, seqNo, e)[..cut])
         == if cut == 0 then End else Bad(Truncated)
  {
    var frame := Frame(codec, seqNo, e);
    FrameRead(codec, seqNo, e, []);
    hide EncodeBody, Frame, DecodeBody;
    assert frame + [] == frame;
    if cut >= 4 {
      assert frame[..cut][0..4] == frame[0..4];
    }
  }

  /** A cut on any byte of the records: with `k` whole frames before it, the reader
      yields exactly those `k` records, then ends cleanly if the cut falls on a frame
      boundary and with exactly one truncation error otherwise. */
  lemma {:induction false} CutExact(codec: Codec, first: nat, events: seq<Event>, cut: nat, k: nat)
    requires first + |events| <= U64_MAX && AllFit(events) && k <= |events|
    requires |Frames(codec, first, events[..k])| <= cut <= |Frames(codec, first, events)|
    requires k < |events| ==> cut < |Frames(codec, first, events[..k + 1])|
    ensures ReadAll(codec, FORMAT_VERSION, Before(first), Frames(codec, first, events)[..cut])
         == (Expected(first, events)[..k],
             if cut == |Frames(codec, first, events[..k])| then None else Some(Truncated))
    decreases k
  {
    hide ReadRecord, Frame;
    if events == [] {
      CleanEnd(codec, Before(first));
      assert Frames(codec, first, events)[..cut] == [] && events[..k] == [];
    } else if k == 0 {
      assert events[..0] == [] && Expected(first, events)[..0] == [];
      CutFirst(codec, first, events, cut);
    } else {
      var head, rest := Frame(codec, first, events[0]), Frames(codec, first + 1, events[1..]);
      assert events[..k][1..] == events[1..][..k - 1] && events[..k][0] == events[0];
      assert k < |events| ==> events[..k + 1][1..] == events[1..][..k] && events[..k + 1][0] == events[0];
      assert (head + rest)[..cut] == head + rest[..cut - |head|];
      AllFitCons(events);
      RecordExact(codec, first, events[0], Before(first), rest[..cut - |head|]);
      CutExact(codec, first + 1, events[1..], cut - |head|, k - 1);
      assert Expected(first, events)[..k]
          == [Record(first, Stored(events[0]))] + Expected(first + 1, events[1..])[..k - 1];
    }
  }

  lemma CutFirst(codec: Codec, first: nat, events: seq<Event>, cut: nat)
    requires first + |events| <= U64_MAX && AllFit(events) && events != []
    requires cut < |Frames(codec, first, events[..1])|
    ensures cut <= |Frames(codec, first, events)|
    ensures ReadAll(codec, FORMAT_VERSION, Before(first), Frames(codec, first, events)[..cut])
         == ([], if cut == 0 then None else Some(Truncated))
  {
    hide ReadRecord, Frame;
    var head := Frame(codec, first, events[0]);
    assert events[..1][1..] == [] && events[..1][0] == events[0];
    assert Frames(codec, first, events[..1]) == head;
    assert Frames(codec, first, events)[..cut] == head[..cut];
    assert Fits(events[0]);
    CutInFrame(codec, first, events[0], Before(first), cut);
  }

  /** `k` frames lie wholly before the cut. */
  ghost predicate WholeBefore(codec: Codec, first: nat, events: seq<Event>, cut: nat, k: nat)
    requires first + |events| <= U64_MAX
  {
    && k <= |events| && |Frames(codec, first, events[..k])| <= cut
    && (k < |events| ==> cut < |Frames(codec, first, events[..k + 1])|)
  }

  lemma {:induction false} WholeFrames(codec: Codec, first: nat, events: seq<Event>, cut: nat) returns (k: nat)
    requires first + |events| <= U64_MAX
    ensures WholeBefore(codec, first, events, cut, k)
    decreases |events|
  {
    hide Frame;
    k := 0;
    assert events[..0] == [];
    if events != [] {
      var head := Frame(codec, first, events[0]);
      assert events[..1][1..] == [] && events[..1][0] == events[0];
      assert Frames(codec, first, events[..1]) == head;
      if |head| <= cut {
        var j := WholeFrames(codec, first + 1, events[1..], cut - |head|);
        k := j + 1;
        assert events[..k][1..] == events[1..][..j] && events[..k][0] == events[0];
        assert k < |events| ==> events[..k + 1][1..] == events[1..][..j + 1] && events[..k + 1][0] == events[0];
      }
    }
  }

  /** A written trace cut at any byte. Cut inside its header it does not open; past it, it
      opens to its command line, and the reader yields exactly the `k` records whose
      frames lie wholly before the cut, then ends cleanly if the cut is on a frame
      boundary and with exactly one truncation error otherwise. */
  lemma TruncationExact(codec: Codec, c: Cmdline, reserved: seq<byte>, events: seq<Event>, cut: nat) returns (k: nat)
    requires ValidCmdline(codec, c) && BASE_HEADER_LEN + |EncodeCmdline(c)| + |reserved| < 0x1_0000
    requires |events| <= U64_MAX && AllFit(events)
    requires cut <= |Header(EncodeCmdline(c) + reserved) + Frames(codec, 0, events)|
    ensures var header := Header(EncodeCmdline(c) + reserved);
            var opening := Open(codec, (header + Frames(codec, 0, events))[..cut]);
            if cut < |header| then opening.Err?
            else
              && opening.Ok? && opening.value.version == FORMAT_VERSION && opening.value.cmdline == Some(c)
              && WholeBefore(codec, 0, events, cut - |header|, k)
              && ReadAll(codec, FORMAT_VERSION, None, opening.value.rest)
                 == (Expected(0, events)[..k],
                     if cut == |header| + |Frames(codec, 0, events[..k])| then None else Some(Truncated))
  {
    var header, frames := Header(EncodeCmdline(c) + reserved), Frames(codec, 0, events);
    if cut < |header| {
      k := 0;
      assert (header + frames)[..cut] == header[..cut];
      CutHeader(codec, EncodeCmdline(c) + reserved, cut);
    } else {
      hide Open, Header, ReadAll, Frames, EncodeCmdline, AllFit, Expected;
      k := WholeFrames(codec, 0, events, cut - |header|);
      assert (header + frames)[..cut] == header + frames[..cut - |header|];
      HeaderRoundTrip(codec, c, reserved, frames[..cut - |header|]);
      CutExact(codec, 0, events, cut - |header|, k);
    }
  }

  lemma CutHeader(codec: Codec, extra: seq<byte>, cut: nat)
    requires BASE_HEADER_LEN + |extra| < 0x1_0000 && cut < |Header(extra)|
    ensures Open(codec, Header(extra)[..cut]).Err?
  {
    HeaderParts(extra, []);
    var header := Header(extra);
    assert header + [] == header;
    hide Header, DecodeCmdline, U16At;
    if cut >= BASE_HEADER_LEN {
      U16Cut(header, 8, cut);
      U16Cut(header, 10, cut);
    }
  }

  lemma U16Cut(bytes: seq<byte>, at: nat, cut: nat)
    requires at + 2 <= cut <= |bytes|
    ensures U16At(bytes[..cut], at) == U16At(bytes, at)
  {
    hide FromLE;
    assert bytes[..cut][at..at + 2] == bytes[at..at + 2];
  }
}
