/** Decoding one coroutine in target memory: its await stack, the leaf future
    it is parked on, its state, its wake cause and its fan-out. */
module AwaitStack {
  import opened Common
  import opened TraceFormat

  const MAX_AWAIT_DEPTH: nat := 64

  /** Target memory: `None` where a read fails. */
  type View = (nat, nat) -> Option<seq<byte>>

  datatype VariantKind = Unresumed | Returned | Panicked | Suspend(n: u16)

  datatype ChildRef = ChildRef(offset: nat, typeName: string)

  datatype Location = Location(path: string, line: u32, column: u32)

  datatype VariantInfo = VariantInfo(kind: VariantKind, location: Option<Location>, awaitee: Option<ChildRef>,
                                     children: seq<ChildRef>)

  datatype Layout = Layout(typeName: string, discrOffset: nat, discrSize: nat, variants: map<nat, VariantInfo>)

  /** Coroutine layouts by type name; a type that is not a key is a leaf future. */
  type Layouts = map<string, Layout>

  datatype DecodeError =
    | ReadFailed(addr: nat, len: nat)
    | NoVariant(typeName: string, discr: nat)
    | NoLayout(typeName: string)
    | TooManyTasks
    | InvalidTree

  datatype BlockReason = Channel(detail: Option<string>) | Lock(detail: Option<string>) | Io(detail: Option<string>)
                       | Join(on: Option<nat>) | Timer | UnknownReason

  datatype TaskState = Runnable | Running | Blocked(on: BlockReason) | Completed

  datatype WakeCause = TimerFired | IoReady(fd: Option<i32>, description: Option<string>)
                     | ChannelReady(detail: Option<string>) | Manual | UnknownCause

  datatype SuspendKind = ChannelRecv | ChannelSend | OnTimer | OnIo | OnJoin | Select | OnLock | Other

  datatype LeafClass = LeafClass(suspend: SuspendKind, wake: WakeCause, block: BlockReason)

  /** What a synthesized frame stands for; its display name is a shortening of this name. */
  datatype Subject = Coroutine(typeName: string) | Leaf(typeName: string)

  datatype SuspendPoint = SuspendPoint(kind: SuspendKind, detail: string)

  datatype Frame = Frame(subject: Subject, location: Option<Location>, suspend: Option<SuspendPoint>)

  /** The decoder's fixed inputs: memory, layouts and the leaf classification table. */
  datatype Scene = Scene(view: View, layouts: Layouts, classify: string -> LeafClass)

  // ---- The active variant -----------------------------------------------------------

  function ActiveVariant(s: Scene, base: nat, layout: Layout): Result<VariantInfo, DecodeError> {
    var addr := base + layout.discrOffset;
    match s.view(addr, layout.discrSize)
    case None => Err(ReadFailed(addr, layout.discrSize))
    case Some(bytes) =>
      var discr := FromLE(bytes);
      if discr in layout.variants then Ok(layout.variants[discr]) else Err(NoVariant(layout.typeName, discr))
  }

  lemma {:induction false} FromLEPush(s: seq<byte>, b: byte)
    ensures FromLE(s + [b]) == FromLE(s) + b * Pow256(|s|)
  {
    if s == [] {
      assert [b][1..] == [];
      assert [] + [b] == [b];
    } else {
      FromLEPush(s[1..], b);
      assert (s + [b])[1..] == s[1..] + [b];
      assert Pow256(|s|) == 256 * Pow256(|s| - 1);
    }
  }

  /** The byte-by-byte discriminant loop reads the little-endian number. */
  method ReadDiscriminant(s: Scene, base: nat, layout: Layout) returns (r: Result<nat, DecodeError>)
    ensures var bytes := s.view(base + layout.discrOffset, layout.discrSize);
            r == if bytes.None? then Err(ReadFailed(base + layout.discrOffset, layout.discrSize))
                 else Ok(FromLE(bytes.value))
  {
    var read := s.view(base + layout.discrOffset, layout.discrSize);
    if read.None? {
      return Err(ReadFailed(base + layout.discrOffset, layout.discrSize));
    }
    var bytes := read.value;
    var value: nat, weight: nat := 0, 1;
    for i := 0 to |bytes|
      invariant value == FromLE(bytes[..i]) && weight == Pow256(i)
    {
      FromLEPush(bytes[..i], bytes[i]);
      assert bytes[..i + 1] == bytes[..i] + [bytes[i]];
      value := value + bytes[i] * weight;
      weight := 256 * weight;
    }
    assert bytes[..|bytes|] == bytes;
    return Ok(value);
  }

  // ---- The leaf and the stack ---------------------------------------------------------

  /** Follow awaitees for at most `depth` coroutines; the type awaited last, if it is a leaf. */
  function LeafFrom(s: Scene, base: nat, layout: Layout, depth: nat): Result<Option<string>, DecodeError>
    decreases depth
  {
    if depth == 0 then Ok(None)
    else
      var variant :- ActiveVariant(s, base, layout);
      match variant.awaitee
      case None => Ok(None)
      case Some(next) =>
        if next.typeName in s.layouts then LeafFrom(s, base + next.offset, s.layouts[next.typeName], depth - 1)
        else Ok(Some(next.typeName))
  }

  function LeafType(s: Scene, base: nat, layout: Layout): Result<Option<string>, DecodeError> {
    LeafFrom(s, base, layout, MAX_AWAIT_DEPTH)
  }

  function CoroutineFrame(layout: Layout, variant: VariantInfo, suspend: Option<SuspendPoint>): Frame {
    Frame(Coroutine(layout.typeName), variant.location, suspend)
  }

  function LeafSuspend(s: Scene, typeName: string): SuspendPoint {
    SuspendPoint(s.classify(typeName).suspend, typeName)
  }

  function LeafFrame(s: Scene, typeName: string): Frame {
    Frame(Leaf(typeName), None, Some(LeafSuspend(s, typeName)))
  }

  function Prepend(frames: seq<Frame>, r: Result<seq<Frame>, DecodeError>): Result<seq<Frame>, DecodeError> {
    if r.Ok? then Ok(frames + r.value) else r
  }

  function StackFrom(s: Scene, base: nat, typeName: string, depth: nat): Result<seq<Frame>, DecodeError>
    decreases depth
  {
    if depth == 0 then Ok([])
    else if typeName !in s.layouts then Err(NoLayout(typeName))
    else
      var layout := s.layouts[typeName];
      var variant :- ActiveVariant(s, base, layout);
      if !variant.kind.Suspend? || variant.awaitee.None? then Ok([CoroutineFrame(layout, variant, None)])
      else
        var next := variant.awaitee.value;
        if next.typeName in s.layouts then
          Prepend([CoroutineFrame(layout, variant, Some(SuspendPoint(Other, next.typeName)))],
                  StackFrom(s, base + next.offset, next.typeName, depth - 1))
        else
          Ok([CoroutineFrame(layout, variant, Some(LeafSuspend(s, next.typeName))), LeafFrame(s, next.typeName)])
  }

  function LogicalStack(s: Scene, base: nat, typeName: string): Result<seq<Frame>, DecodeError> {
    StackFrom(s, base, typeName, MAX_AWAIT_DEPTH)
  }

  /** The bounded loop of `leaf_type`. */
  method FindLeaf(s: Scene, base: nat, layout: Layout) returns (r: Result<Option<string>, DecodeError>)
    ensures r == LeafType(s, base, layout)
  {
    var curBase: nat, curLayout := base, layout;
    for i := 0 to MAX_AWAIT_DEPTH
      invariant LeafType(s, base, layout) == LeafFrom(s, curBase, curLayout, MAX_AWAIT_DEPTH - i)
    {
      var variant := ActiveVariant(s, curBase, curLayout);
      if variant.Err? {
        return Err(variant.error);
      }
      if variant.value.awaitee.None? {
        return Ok(None);
      }
      var next := variant.value.awaitee.value;
      if next.typeName !in s.layouts {
        return Ok(Some(next.typeName));
      }
      curBase, curLayout := curBase + next.offset, s.layouts[next.typeName];
    }
    return Ok(None);
  }

  /** The bounded loop of `logical_stack`, pushing frames as it descends. */
  method BuildStack(s: Scene, base: nat, typeName: string) returns (r: Result<seq<Frame>, DecodeError>)
    ensures r == LogicalStack(s, base, typeName)
  {
    var frames: seq<Frame> := [];
    var curBase: nat, curType := base, typeName;
    PrependNothing(LogicalStack(s, base, typeName));
    for i := 0 to MAX_AWAIT_DEPTH
      invariant LogicalStack(s, base, typeName) == Prepend(frames, StackFrom(s, curBase, curType, MAX_AWAIT_DEPTH - i))
    {
      if curType !in s.layouts {
        return Err(NoLayout(curType));
      }
      var layout := s.layouts[curType];
      var active := ActiveVariant(s, curBase, layout);
      if active.Err? {
        return Err(active.error);
      }
      var variant := active.value;
      if !variant.kind.Suspend? || variant.awaitee.None? {
        return Ok(frames + [CoroutineFrame(layout, variant, None)]);
      }
      var next := variant.awaitee.value;
      if next.typeName !in s.layouts {
        return Ok(frames + [CoroutineFrame(layout, variant, Some(LeafSuspend(s, next.typeName))),
                            LeafFrame(s, next.typeName)]);
      }
      var frame := CoroutineFrame(layout, variant, Some(SuspendPoint(Other, next.typeName)));
      PrependTwice(frames, [frame], StackFrom(s, curBase + next.offset, next.typeName, MAX_AWAIT_DEPTH - i - 1));
      frames := frames + [frame];
      curBase, curType := curBase + next.offset, next.typeName;
    }
    assert frames + [] == frames;
    return Ok(frames);
  }

  lemma PrependNothing(r: Result<seq<Frame>, DecodeError>)
    ensures Prepend([], r) == r
  {
    if r.Ok? {
      assert [] + r.value == r.value;
    }
  }

  lemma PrependTwice(a: seq<Frame>, b: seq<Frame>, r: Result<seq<Frame>, DecodeError>)
    ensures Prepend(a, Prepend(b, r)) == Prepend(a + b, r)
  {
    if r.Ok? {
      assert a + (b + r.value) == (a + b) + r.value;
    }
  }

  // ---- State, wake cause, fan-out -------------------------------------------------------

  function Bit(word: nat, mask: nat): bool
    requires mask > 0
  {
    (word / mask) % 2 == 1
  }

  /** Tokio's header bits: COMPLETE 2, CANCELLED 32, RUNNING 1, NOTIFIED 4. */
  function HeaderState(word: nat): TaskState {
    if Bit(word, 2) || Bit(word, 32) then Completed
    else if Bit(word, 1) then Running
    else if Bit(word, 4) then Runnable
    else Blocked(UnknownReason)
  }

  function VariantState(kind: VariantKind): TaskState {
    match kind
    case Unresumed => Runnable
    case Returned => Completed
    case Panicked => Completed
    case Suspend(_) => Blocked(UnknownReason)
  }

  /** The header state word is read as 8 bytes, extra bytes ignored, missing ones zero. */
  function HeaderWord(bytes: seq<byte>): nat {
    FromLE(if |bytes| <= 8 then bytes else bytes[..8])
  }

  function BaseState(s: Scene, variant: VariantInfo, header: Option<nat>): Result<TaskState, DecodeError> {
    match header
    case None => Ok(VariantState(variant.kind))
    case Some(addr) =>
      match s.view(addr, 8)
      case None => Err(ReadFailed(addr, 8))
      case Some(bytes) => Ok(HeaderState(HeaderWord(bytes)))
  }

  function StateOf(s: Scene, base: nat, layout: Layout, header: Option<nat>): Result<TaskState, DecodeError> {
    var variant :- ActiveVariant(s, base, layout);
    var state :- BaseState(s, variant, header);
    if state.Blocked? then
      var leaf :- LeafType(s, base, layout);
      Ok(Blocked(if leaf.Some? then s.classify(leaf.value).block else UnknownReason))
    else Ok(state)
  }

  function WakeOf(s: Scene, base: nat, layout: Layout): Result<WakeCause, DecodeError> {
    var leaf :- LeafType(s, base, layout);
    Ok(if leaf.Some? then s.classify(leaf.value).wake else UnknownCause)
  }

  /** The fan-out of the active variant, at absolute addresses. */
  function FanOut(s: Scene, base: nat, layout: Layout): Result<seq<ChildRef>, DecodeError> {
    var variant :- ActiveVariant(s, base, layout);
    Ok(seq(|variant.children|, i requires 0 <= i < |variant.children| =>
      ChildRef(base + variant.children[i].offset, variant.children[i].typeName)))
  }

  // ---- Agreement of stack and state --------------------------------------------------------

  /** The leaf a stack ends in. */
  function StackLeaf(frames: seq<Frame>): Option<string> {
    if frames != [] && frames[|frames| - 1].subject.Leaf? then Some(frames[|frames| - 1].subject.typeName) else None
  }

  /** Both walks fail alike, or the one's leaf is the other's last frame. */
  ghost predicate Agree(leaf: Result<Option<string>, DecodeError>, stack: Result<seq<Frame>, DecodeError>) {
    if stack.Ok? then leaf == Ok(StackLeaf(stack.value)) else leaf == Err(stack.error)
  }

  /** What is left of the leaf walk where the stack walk stops at a variant
      that is not a suspend point although it records an awaitee. */
  datatype Overrun = Overrun(base: nat, awaitee: ChildRef, depth: nat)

  function FindOverrun(s: Scene, base: nat, layout: Layout, depth: nat): Option<Overrun>
    decreases depth
  {
    if depth == 0 then None
    else
      var active := ActiveVariant(s, base, layout);
      if active.Err? || active.value.awaitee.None? then None
      else
        var next := active.value.awaitee.value;
        if !active.value.kind.Suspend? then Some(Overrun(base + next.offset, next, depth - 1))
        else if next.typeName in s.layouts then
          FindOverrun(s, base + next.offset, s.layouts[next.typeName], depth - 1)
        else None
  }

  /** From here the awaitees lead, within `depth` coroutines, to no leaf: each one in
      memory has a known active variant, and each awaitee is itself a coroutine. */
  ghost predicate DeadEnd(s: Scene, base: nat, typeName: string, depth: nat)
    decreases depth
  {
    typeName in s.layouts
    && (depth == 0
        || var layout := s.layouts[typeName];
           var bytes := s.view(base + layout.discrOffset, layout.discrSize);
           && bytes.Some? && FromLE(bytes.value) in layout.variants
           && var awaitee := layout.variants[FromLE(bytes.value)].awaitee;
              awaitee.Some? ==> DeadEnd(s, base + awaitee.value.offset, awaitee.value.typeName, depth - 1))
  }

  /** What the stack walk stopped short of, if anything, leads nowhere. */
  ghost predicate NothingBeyond(s: Scene, o: Option<Overrun>) {
    o.Some? ==> DeadEnd(s, o.value.base, o.value.awaitee.typeName, o.value.depth)
  }

  lemma {:induction false} DeadEndHasNoLeaf(s: Scene, base: nat, typeName: string, depth: nat)
    ensures DeadEnd(s, base, typeName, depth)
       <==> typeName in s.layouts && LeafFrom(s, base, s.layouts[typeName], depth) == Ok(None)
    decreases depth
  {
    hide FromLE;
    if depth > 0 && typeName in s.layouts {
      var active := ActiveVariant(s, base, s.layouts[typeName]);
      if active.Ok? && active.value.awaitee.Some? && active.value.awaitee.value.typeName in s.layouts {
        DeadEndHasNoLeaf(s, base + active.value.awaitee.value.offset, active.value.awaitee.value.typeName, depth - 1);
      }
    }
  }

  lemma LastAppended(frame: Frame, rest: seq<Frame>)
    requires frame.subject.Coroutine?
    ensures StackLeaf([frame] + rest) == StackLeaf(rest)
  {
  }

  lemma {:induction false} AgreementFrom(s: Scene, base: nat, typeName: string, depth: nat)
    requires typeName in s.layouts
    ensures Agree(LeafFrom(s, base, s.layouts[typeName], depth), StackFrom(s, base, typeName, depth))
       <==> NothingBeyond(s, FindOverrun(s, base, s.layouts[typeName], depth))
    ensures StackFrom(s, base, typeName, depth).Ok? ==> |StackFrom(s, base, typeName, depth).value| <= depth + 1
    decreases depth
  {
    hide ActiveVariant, FromLE, DeadEnd;
    if depth > 0 {
      var layout := s.layouts[typeName];
      var active := ActiveVariant(s, base, layout);
      if active.Ok? && active.value.awaitee.Some? && !active.value.kind.Suspend? {
        var next := active.value.awaitee.value;
        DeadEndHasNoLeaf(s, base + next.offset, next.typeName, depth - 1);
      }
      if active.Ok? && active.value.awaitee.Some? && active.value.kind.Suspend? {
        var next := active.value.awaitee.value;
        if next.typeName in s.layouts {
          AgreementFrom(s, base + next.offset, next.typeName, depth - 1);
          var rest := StackFrom(s, base + next.offset, next.typeName, depth - 1);
          if rest.Ok? {
            LastAppended(CoroutineFrame(layout, active.value, Some(SuspendPoint(Other, next.typeName))), rest.value);
          }
        }
      }
    }
  }

  /** On every input the stack and the leaf agree, failures included, if and only
      if the walk meets no non-suspend variant with an awaitee, or the awaitees
      from there on lead to no leaf; a stack has at most 65 frames. */
  lemma StackLeafExact(s: Scene, base: nat, typeName: string)
    requires typeName in s.layouts
    ensures Agree(LeafType(s, base, s.layouts[typeName]), LogicalStack(s, base, typeName))
       <==> NothingBeyond(s, FindOverrun(s, base, s.layouts[typeName], MAX_AWAIT_DEPTH))
    ensures LogicalStack(s, base, typeName).Ok? ==> |LogicalStack(s, base, typeName).value| <= 65
  {
    AgreementFrom(s, base, typeName, MAX_AWAIT_DEPTH);
  }

  /** Only suspend variants record an awaitee. */
  ghost predicate QuietTerminals(layouts: Layouts) {
    forall t, d :: t in layouts && d in layouts[t].variants && !layouts[t].variants[d].kind.Suspend?
      ==> layouts[t].variants[d].awaitee.None?
  }

  lemma {:induction false} QuietNeverOverruns(s: Scene, base: nat, typeName: string, depth: nat)
    requires QuietTerminals(s.layouts) && typeName in s.layouts
    ensures FindOverrun(s, base, s.layouts[typeName], depth) == None
    decreases depth
  {
    if depth > 0 {
      var active := ActiveVariant(s, base, s.layouts[typeName]);
      if active.Ok? && active.value.awaitee.Some? && active.value.awaitee.value.typeName in s.layouts {
        QuietNeverOverruns(s, base + active.value.awaitee.value.offset, active.value.awaitee.value.typeName, depth - 1);
      }
    }
  }

  /** For layouts whose non-suspend variants await nothing, on every memory: the
      leaf walk and the stack fail on the same inputs with the same error, the
      leaf is the stack's last frame, and block reason and wake cause are its
      classification. */
  lemma StackStateAgreement(s: Scene, base: nat, typeName: string, header: Option<nat>)
    requires QuietTerminals(s.layouts) && typeName in s.layouts
    ensures Agree(LeafType(s, base, s.layouts[typeName]), LogicalStack(s, base, typeName))
    ensures LogicalStack(s, base, typeName).Err?
        ==> WakeOf(s, base, s.layouts[typeName]) == Err(LogicalStack(s, base, typeName).error)
    ensures LogicalStack(s, base, typeName).Ok?
        ==> var leaf := StackLeaf(LogicalStack(s, base, typeName).value);
            var state := StateOf(s, base, s.layouts[typeName], header);
            && WakeOf(s, base, s.layouts[typeName])
               == Ok(if leaf.Some? then s.classify(leaf.value).wake else UnknownCause)
            && (state.Ok? && state.value.Blocked?
                ==> state.value.on == if leaf.Some? then s.classify(leaf.value).block else UnknownReason)
            && (header.None? ==> state.Ok?)
            && (header.None? && leaf.Some? ==> state.value == Blocked(s.classify(leaf.value).block))
  {
    hide FindOverrun, LeafFrom, StackFrom;
    StackLeafExact(s, base, typeName);
    QuietNeverOverruns(s, base, typeName, MAX_AWAIT_DEPTH);
    if header.None? && LogicalStack(s, base, typeName).Ok? {
      LeafMeansSuspended(s, base, typeName, MAX_AWAIT_DEPTH);
    }
  }

  lemma LeafMeansSuspended(s: Scene, base: nat, typeName: string, depth: nat)
    requires typeName in s.layouts && depth > 0
    ensures StackFrom(s, base, typeName, depth).Ok? ==> ActiveVariant(s, base, s.layouts[typeName]).Ok?
    ensures StackFrom(s, base, typeName, depth).Ok? && StackLeaf(StackFrom(s, base, typeName, depth).value).Some?
        ==> ActiveVariant(s, base, s.layouts[typeName]).value.kind.Suspend?
  {
  }

  /** Without the hypothesis they part: a finished coroutine that still records
      an awaitee has a leaf, and a one-frame stack without it. */
  lemma ReturnedWithAwaitee(classify: string -> LeafClass)
    ensures var done := VariantInfo(Returned, None, Some(ChildRef(8, "Sleep")), []);
            var layout := Layout("task", 0, 1, map[1 := done]);
            var s := Scene((addr, len) => Some([1]), map["task" := layout], classify);
            && LeafType(s, 0, layout) == Ok(Some("Sleep"))
            && LogicalStack(s, 0, "task") == Ok([Frame(Coroutine("task"), None, None)])
  {
    var done := VariantInfo(Returned, None, Some(ChildRef(8, "Sleep")), []);
    var layout := Layout("task", 0, 1, map[1 := done]);
    var s := Scene((addr, len) => Some([1]), map["task" := layout], classify);
    assert FromLE([1]) == 1;
    assert ActiveVariant(s, 0, layout) == Ok(done);
    assert "Sleep" !in s.layouts by {
      assert |"Sleep"| != |"task"|;
    }
  }
}
