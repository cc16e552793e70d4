/** The await stack and the task state, read off memory and layouts alone. */
module AwaitChain {
  import opened Common
  import opened TraceFormat
  import opened AwaitStack

  // ---- What memory selects ----------------------------------------------------------------

  /** The number memory holds at a coroutine's discriminant selects this variant of its layout. */
  ghost predicate Selects(s: Scene, base: nat, typeName: string, v: VariantInfo) {
    typeName in s.layouts
    && var layout := s.layouts[typeName];
       var bytes := s.view(base + layout.discrOffset, layout.discrSize);
       bytes.Some? && FromLE(bytes.value) in layout.variants && v == layout.variants[FromLE(bytes.value)]
  }

  lemma SelectsActive(s: Scene, base: nat, typeName: string)
    requires typeName in s.layouts
    ensures forall v :: Selects(s, base, typeName, v) <==> ActiveVariant(s, base, s.layouts[typeName]) == Ok(v)
  {
    hide FromLE;
  }

  // ---- The chain ----------------------------------------------------------------------------

  /** A coroutine of the chain: where it is, what it is, and the variant it is in. */
  datatype Link = Link(base: nat, typeName: string, variant: VariantInfo)

  /** What a coroutine awaits, if it is suspended. */
  function Awaited(v: VariantInfo): Option<ChildRef> {
    if v.kind.Suspend? then v.awaitee else None
  }

  /** Each link is as memory says, and awaits the next one inside itself. */
  ghost predicate IsChain(s: Scene, base: nat, typeName: string, links: seq<Link>) {
    && links != [] && links[0].base == base && links[0].typeName == typeName
    && (forall k :: 0 <= k < |links| ==> Selects(s, links[k].base, links[k].typeName, links[k].variant))
    && (forall k :: 0 <= k < |links| - 1 ==> AwaitsNext(s, links[k], links[k + 1]))
  }

  ghost predicate AwaitsNext(s: Scene, a: Link, b: Link) {
    && Awaited(a.variant).Some? && Awaited(a.variant).value.typeName in s.layouts
    && b.base == a.base + Awaited(a.variant).value.offset && b.typeName == Awaited(a.variant).value.typeName
  }

  /** Nothing follows the chain, or it has reached the depth limit. */
  ghost predicate IsWhole(s: Scene, links: seq<Link>, limit: nat)
    requires links != []
  {
    var last := Awaited(links[|links| - 1].variant);
    |links| == limit || (|links| < limit && (last.None? || last.value.typeName !in s.layouts))
  }

  /** The leaf future the last coroutine awaits. */
  function LeafAwaited(s: Scene, links: seq<Link>): Option<string>
    requires links != []
  {
    var last := Awaited(links[|links| - 1].variant);
    if last.Some? && last.value.typeName !in s.layouts then Some(last.value.typeName) else None
  }

  /** The frame of one coroutine: its name, its await point, and what it awaits. */
  function FrameOf(s: Scene, link: Link): Frame
    requires link.typeName in s.layouts
  {
    var awaited := Awaited(link.variant);
    Frame(Coroutine(s.layouts[link.typeName].typeName), link.variant.location,
          if awaited.None? then None
          else Some(SuspendPoint(if awaited.value.typeName in s.layouts then Other
                                 else s.classify(awaited.value.typeName).suspend, awaited.value.typeName)))
  }

  /** One frame per coroutine of the chain, in order, and one for the leaf if there is one. */
  ghost predicate Describes(s: Scene, links: seq<Link>, frames: seq<Frame>)
    requires links != []
  {
    var leaf := LeafAwaited(s, links);
    && |frames| == |links| + (if leaf.Some? then 1 else 0)
    && (forall k :: 0 <= k < |links| ==>
          links[k].typeName in s.layouts && frames[k] == FrameOf(s, links[k]))
    && (leaf.Some? ==>
          frames[|links|] == Frame(Leaf(leaf.value), None,
                                   Some(SuspendPoint(s.classify(leaf.value).suspend, leaf.value))))
  }

  ghost predicate Shows(s: Scene, base: nat, typeName: string, limit: nat, links: seq<Link>, frames: seq<Frame>) {
    IsChain(s, base, typeName, links) && IsWhole(s, links, limit) && Describes(s, links, frames)
  }

  lemma ChainTail(s: Scene, base: nat, typeName: string, links: seq<Link>)
    requires IsChain(s, base, typeName, links) && |links| > 1
    ensures IsChain(s, links[1].base, links[1].typeName, links[1..])
    ensures AwaitsNext(s, links[0], links[1])
  {
    assert forall k :: 0 <= k < |links[1..]| ==> links[1..][k] == links[k + 1];
    assert AwaitsNext(s, links[0], links[0 + 1]);
  }

  lemma ChainCons(s: Scene, base: nat, typeName: string, v: VariantInfo, links: seq<Link>)
    requires Selects(s, base, typeName, v) && links != [] && IsChain(s, links[0].base, links[0].typeName, links)
    requires AwaitsNext(s, Link(base, typeName, v), links[0])
    ensures IsChain(s, base, typeName, [Link(base, typeName, v)] + links)
  {
  }

  lemma DescribesCons(s: Scene, link: Link, links: seq<Link>, frames: seq<Frame>)
    requires links != [] && link.typeName in s.layouts
    ensures Describes(s, [link] + links, [FrameOf(s, link)] + frames) <==> Describes(s, links, frames)
  {
    var all, shown := [link] + links, [FrameOf(s, link)] + frames;
    assert all[|all| - 1] == links[|links| - 1];
    if Describes(s, all, shown) {
      forall k | 0 <= k < |links| ensures links[k].typeName in s.layouts && frames[k] == FrameOf(s, links[k]) {
        assert all[k + 1] == links[k] && shown[k + 1] == frames[k];
      }
    }
  }

  /** What a longer chain shows is its first coroutine's frame and what the rest shows. */
  lemma ShowsTail(s: Scene, base: nat, typeName: string, limit: nat, links: seq<Link>, frames: seq<Frame>)
    requires Shows(s, base, typeName, limit, links, frames) && |links| > 1
    ensures limit > 1 && Selects(s, base, typeName, links[0].variant) && AwaitsNext(s, links[0], links[1])
    ensures links[0].base == base && links[0].typeName == typeName && typeName in s.layouts
    ensures frames != [] && frames == [FrameOf(s, links[0])] + frames[1..]
    ensures Shows(s, links[1].base, links[1].typeName, limit - 1, links[1..], frames[1..])
  {
    hide Selects, AwaitsNext, FrameOf;
    ChainTail(s, base, typeName, links);
    KnownType(s, base, typeName, links[0].variant);
    var rest := links[1..];
    assert links == [links[0]] + rest && frames == [FrameOf(s, links[0])] + frames[1..];
    DescribesCons(s, links[0], rest, frames[1..]);
    assert rest[|rest| - 1] == links[|links| - 1];
  }

  /** The stack of a coroutine that awaits another is its frame and the other's stack. */
  lemma StackStep(s: Scene, link: Link, next: Link, limit: nat)
    requires limit > 0 && Selects(s, link.base, link.typeName, link.variant) && AwaitsNext(s, link, next)
    ensures link.typeName in s.layouts
    ensures StackFrom(s, link.base, link.typeName, limit)
         == Prepend([FrameOf(s, link)], StackFrom(s, next.base, next.typeName, limit - 1))
  {
    KnownType(s, link.base, link.typeName, link.variant);
    SelectsActive(s, link.base, link.typeName);
    hide ActiveVariant, Selects;
  }

  /** The stack of a whole chain is the one that describes it. */
  lemma {:induction false} ChainGivesStack(s: Scene, base: nat, typeName: string, limit: nat, links: seq<Link>,
                                           frames: seq<Frame>)
    requires Shows(s, base, typeName, limit, links, frames)
    ensures StackFrom(s, base, typeName, limit) == Ok(frames)
    decreases limit
  {
    if |links| > 1 {
      ShowsTail(s, base, typeName, limit, links, frames);
      hide Shows, Selects, AwaitsNext, StackFrom, FrameOf;
      StackStep(s, links[0], links[1], limit);
      ChainGivesStack(s, links[1].base, links[1].typeName, limit - 1, links[1..], frames[1..]);
    } else {
      LoneChain(s, base, typeName, limit, links, frames);
    }
  }

  lemma LoneChain(s: Scene, base: nat, typeName: string, limit: nat, links: seq<Link>, frames: seq<Frame>)
    requires Shows(s, base, typeName, limit, links, frames) && |links| <= 1
    ensures StackFrom(s, base, typeName, limit) == Ok(frames)
  {
    hide ActiveVariant, StackFrom, Selects;
    KnownType(s, base, typeName, links[0].variant);
    SelectsActive(s, base, typeName);
    assert links == [links[0]];
    OneLink(s, base, typeName, limit, links[0], frames);
  }

  lemma KnownType(s: Scene, base: nat, typeName: string, v: VariantInfo)
    requires Selects(s, base, typeName, v)
    ensures typeName in s.layouts
  {
  }

  lemma OneLink(s: Scene, base: nat, typeName: string, limit: nat, link: Link, frames: seq<Frame>)
    requires Shows(s, base, typeName, limit, [link], frames) && typeName in s.layouts
    requires ActiveVariant(s, base, s.layouts[typeName]) == Ok(link.variant)
    ensures StackFrom(s, base, typeName, limit) == Ok(frames)
  {
    hide ActiveVariant, Selects;
    assert [link][0] == link && frames[0] == FrameOf(s, [link][0]);
    var leaf, awaited := LeafAwaited(s, [link]), Awaited(link.variant);
    assert frames == [frames[0]] + (if leaf.Some? then [frames[1]] else []);
    if awaited.Some? && awaited.value.typeName in s.layouts {
      assert limit == 1 && StackFrom(s, base + awaited.value.offset, awaited.value.typeName, 0) == Ok([]);
    } else if awaited.Some? {
      assert frames[1] == LeafFrame(s, awaited.value.typeName);
      assert frames == [frames[0], frames[1]];
      assert StackFrom(s, base, typeName, limit) == Ok([FrameOf(s, link), LeafFrame(s, awaited.value.typeName)]);
    } else {
      assert limit > 0 && frames == [frames[0]];
      assert StackFrom(s, base, typeName, limit) == Ok([FrameOf(s, link)]);
    }
  }

  /** Every stack has a whole chain. */
  lemma {:induction false} StackHasChain(s: Scene, base: nat, typeName: string, limit: nat) returns (links: seq<Link>)
    requires limit > 0 && StackFrom(s, base, typeName, limit).Ok?
    ensures Shows(s, base, typeName, limit, links, StackFrom(s, base, typeName, limit).value)
    decreases limit
  {
    hide ActiveVariant, Selects;
    SelectsActive(s, base, typeName);
    var layout := s.layouts[typeName];
    var v := ActiveVariant(s, base, layout).value;
    var link := Link(base, typeName, v);
    links := [link];
    if Awaited(v).Some? && Awaited(v).value.typeName in s.layouts && limit > 1 {
      var next := Awaited(v).value;
      var rest := StackHasChain(s, base + next.offset, next.typeName, limit - 1);
      ChainCons(s, base, typeName, v, rest);
      DescribesCons(s, link, rest, StackFrom(s, base + next.offset, next.typeName, limit - 1).value);
      links := [link] + rest;
      assert links[|links| - 1] == rest[|rest| - 1];
    } else {
      LoneLink(s, base, typeName, limit, link);
    }
  }

  lemma LoneLink(s: Scene, base: nat, typeName: string, limit: nat, link: Link)
    requires limit > 0 && typeName in s.layouts && link.base == base && link.typeName == typeName
    requires ActiveVariant(s, base, s.layouts[typeName]) == Ok(link.variant)
    requires Selects(s, base, typeName, link.variant)
    requires Awaited(link.variant).Some? && Awaited(link.variant).value.typeName in s.layouts ==> limit == 1
    ensures StackFrom(s, base, typeName, limit).Ok?
    ensures Shows(s, base, typeName, limit, [link], StackFrom(s, base, typeName, limit).value)
  {
    hide ActiveVariant, Selects;
    var awaited := Awaited(link.variant);
    if awaited.Some? && awaited.value.typeName in s.layouts {
      assert StackFrom(s, base + awaited.value.offset, awaited.value.typeName, 0) == Ok([]);
    }
  }

  /** The stack is the await chain. Decoding succeeds with these frames exactly when memory
      and layouts hold a chain of coroutines, each awaiting the next inside itself and none
      left out, up to 64 of them, that the frames describe: one per coroutine, outermost
      first, with its name, its await point and what it awaits, and one for the leaf. */
  lemma StackIsChain(s: Scene, base: nat, typeName: string, frames: seq<Frame>)
    ensures LogicalStack(s, base, typeName) == Ok(frames)
       <==> exists links :: Shows(s, base, typeName, 64, links, frames)
  {
    hide StackFrom, Shows;
    if LogicalStack(s, base, typeName) == Ok(frames) {
      var links := StackHasChain(s, base, typeName, 64);
    }
    forall links | Shows(s, base, typeName, 64, links, frames) ensures LogicalStack(s, base, typeName) == Ok(frames) {
      ChainGivesStack(s, base, typeName, 64, links, frames);
    }
  }

  /** A coroutine that cannot be decoded, and the error that tells why. */
  ghost predicate Breaks(s: Scene, at: ChildRef, e: DecodeError) {
    if at.typeName !in s.layouts then e == NoLayout(at.typeName)
    else
      var layout := s.layouts[at.typeName];
      var bytes := s.view(at.offset + layout.discrOffset, layout.discrSize);
      if bytes.None? then e == ReadFailed(at.offset + layout.discrOffset, layout.discrSize)
      else FromLE(bytes.value) !in layout.variants && e == NoVariant(layout.typeName, FromLE(bytes.value))
  }

  /** The chain leads to this coroutine next. */
  ghost predicate LeadsTo(s: Scene, base: nat, typeName: string, links: seq<Link>, at: ChildRef) {
    if links == [] then at == ChildRef(base, typeName)
    else
      && IsChain(s, base, typeName, links)
      && var last := links[|links| - 1];
         Awaited(last.variant).Some?
         && at == ChildRef(last.base + Awaited(last.variant).value.offset, Awaited(last.variant).value.typeName)
  }

  /** A failure is that of the first coroutine of the chain that cannot be decoded, within the limit. */
  lemma {:induction false} FailsWhereItBreaks(s: Scene, base: nat, typeName: string, limit: nat)
      returns (links: seq<Link>, at: ChildRef)
    requires StackFrom(s, base, typeName, limit).Err?
    ensures |links| < limit && LeadsTo(s, base, typeName, links, at)
    ensures Breaks(s, at, StackFrom(s, base, typeName, limit).error)
    decreases limit
  {
    hide FromLE, Selects;
    links, at := [], ChildRef(base, typeName);
    if typeName in s.layouts && ActiveVariant(s, base, s.layouts[typeName]).Ok? {
      var v := ActiveVariant(s, base, s.layouts[typeName]).value;
      SelectsActive(s, base, typeName);
      var next := Awaited(v).value;
      var rest, there := FailsWhereItBreaks(s, base + next.offset, next.typeName, limit - 1);
      at := there;
      links := [Link(base, typeName, v)] + rest;
      if rest != [] {
        ChainCons(s, base, typeName, v, rest);
        assert links[|links| - 1] == rest[|rest| - 1];
      }
    }
  }

  // ---- The state ---------------------------------------------------------------------------

  /** The bits of a task header: running, complete, notified, join interest, join waker,
      cancelled, and the reference count above them. A task that is complete or cancelled is
      done; otherwise it runs, is due to run, or is parked. */
  lemma HeaderBits(running: bool, complete: bool, notified: bool, interest: bool, waker: bool, cancelled: bool,
                   refs: nat)
    ensures var word := (if running then 1 else 0) + (if complete then 2 else 0) + (if notified then 4 else 0)
                        + (if interest then 8 else 0) + (if waker then 16 else 0) + (if cancelled then 32 else 0)
                        + 64 * refs;
            HeaderState(word)
            == if complete || cancelled then Completed
               else if running then Running
               else if notified then Runnable
               else Blocked(UnknownReason)
  {
    var low := (if running then 1 else 0) + (if complete then 2 else 0) + (if notified then 4 else 0)
               + (if interest then 8 else 0) + (if waker then 16 else 0);
    var word := low + (if cancelled then 32 else 0) + 64 * refs;
    BitAt(word, 1, (if complete then 1 else 0) + (if notified then 2 else 0) + (if interest then 4 else 0)
                   + (if waker then 8 else 0) + (if cancelled then 16 else 0) + 32 * refs, if running then 1 else 0);
    BitAt(word, 2, (if notified then 2 else 0) / 2 + (if interest then 2 else 0) + (if waker then 4 else 0)
                   + (if cancelled then 8 else 0) + 16 * refs,
          (if running then 1 else 0) + (if complete then 2 else 0));
    BitAt(word, 4, (if interest then 1 else 0) + (if waker then 2 else 0) + (if cancelled then 4 else 0) + 8 * refs,
          (if running then 1 else 0) + (if complete then 2 else 0) + (if notified then 4 else 0));
    BitAt(word, 32, refs, low + if cancelled then 32 else 0);
  }

  /** Cutting a number just above the bit tested leaves that bit decided by the lower part. */
  lemma BitAt(word: nat, mask: nat, high: nat, low: nat)
    requires mask > 0 && word == 2 * mask * high + low && low < 2 * mask
    ensures Bit(word, mask) <==> low >= mask
  {
    if low >= mask {
      assert word == mask * (2 * high + 1) + (low - mask);
      Quotient(word, mask, 2 * high + 1, low - mask);
    } else {
      assert word == mask * (2 * high) + low;
      Quotient(word, mask, 2 * high, low);
    }
  }

  lemma Quotient(n: nat, d: nat, q: nat, r: nat)
    requires d > 0 && n == d * q + r && r < d
    ensures n / d == q
  {
    var k := n / d - q;
    assert n == d * (n / d) + n % d;
    assert d * k == r - n % d by { Spread(d, n / d, q); }
    Multiple(d, k);
  }

  lemma Spread(d: int, a: int, b: int)
    ensures d * (a - b) == d * a - d * b
  {
  }

  lemma Multiple(d: nat, k: int)
    requires d > 0
    ensures k >= 1 ==> d * k >= d
    ensures k <= -1 ==> d * k + d <= 0
  {
  }

  // ---- The leaf -------------------------------------------------------------------------------

  /** Each link is as memory says and records the next one as its awaitee, suspended or not. */
  ghost predicate IsTrail(s: Scene, base: nat, typeName: string, links: seq<Link>) {
    && links != [] && links[0].base == base && links[0].typeName == typeName
    && (forall k :: 0 <= k < |links| ==> Selects(s, links[k].base, links[k].typeName, links[k].variant))
    && (forall k :: 0 <= k < |links| - 1 ==> Records(links[k], links[k + 1]))
  }

  ghost predicate Records(a: Link, b: Link) {
    a.variant.awaitee.Some? && b.typeName == a.variant.awaitee.value.typeName
    && b.base == a.base + a.variant.awaitee.value.offset
  }

  /** The trail leads to this leaf, to none, or to none within the limit. */
  ghost predicate LeadsToLeaf(s: Scene, links: seq<Link>, limit: nat, leaf: Option<string>)
    requires links != []
  {
    var last := links[|links| - 1].variant.awaitee;
    if last.Some? && last.value.typeName !in s.layouts then |links| <= limit && leaf == Some(last.value.typeName)
    else leaf == None && (if last.Some? then |links| == limit else |links| <= limit)
  }

  ghost predicate ReadsLeaf(s: Scene, base: nat, typeName: string, limit: nat, links: seq<Link>, leaf: Option<string>) {
    IsTrail(s, base, typeName, links) && LeadsToLeaf(s, links, limit, leaf)
  }

  lemma TrailCons(s: Scene, base: nat, typeName: string, v: VariantInfo, links: seq<Link>)
    requires Selects(s, base, typeName, v) && links != [] && IsTrail(s, links[0].base, links[0].typeName, links)
    requires Records(Link(base, typeName, v), links[0])
    ensures IsTrail(s, base, typeName, [Link(base, typeName, v)] + links)
  {
    hide Selects;
  }

  lemma TrailTail(s: Scene, base: nat, typeName: string, links: seq<Link>)
    requires IsTrail(s, base, typeName, links) && |links| > 1
    ensures IsTrail(s, links[1].base, links[1].typeName, links[1..]) && Records(links[0], links[1])
  {
    hide Selects;
    assert forall k :: 0 <= k < |links[1..]| ==> links[1..][k] == links[k + 1];
    assert Records(links[0], links[0 + 1]);
  }

  lemma {:induction false} TrailGivesLeaf(s: Scene, base: nat, typeName: string, limit: nat, links: seq<Link>,
                                          leaf: Option<string>)
    requires typeName in s.layouts && ReadsLeaf(s, base, typeName, limit, links, leaf)
    ensures LeafFrom(s, base, s.layouts[typeName], limit) == Ok(leaf)
    decreases limit
  {
    hide ActiveVariant, Selects;
    SelectsActive(s, base, typeName);
    assert Selects(s, base, typeName, links[0].variant);
    if |links| > 1 {
      TrailTail(s, base, typeName, links);
      KnownType(s, links[1].base, links[1].typeName, links[1].variant);
      assert links[1..][|links[1..]| - 1] == links[|links| - 1];
      TrailGivesLeaf(s, links[1].base, links[1].typeName, limit - 1, links[1..], leaf);
    } else if links[0].variant.awaitee.Some? && links[0].variant.awaitee.value.typeName in s.layouts {
      var next := links[0].variant.awaitee.value;
      assert limit == 1 && LeafFrom(s, base + next.offset, s.layouts[next.typeName], 0) == Ok(None);
    }
  }

  lemma {:induction false} LeafHasTrail(s: Scene, base: nat, typeName: string, limit: nat) returns (links: seq<Link>)
    requires limit > 0 && typeName in s.layouts && LeafFrom(s, base, s.layouts[typeName], limit).Ok?
    ensures ReadsLeaf(s, base, typeName, limit, links, LeafFrom(s, base, s.layouts[typeName], limit).value)
    decreases limit
  {
    hide ActiveVariant, Selects;
    SelectsActive(s, base, typeName);
    var v := ActiveVariant(s, base, s.layouts[typeName]).value;
    links := [Link(base, typeName, v)];
    if v.awaitee.Some? && v.awaitee.value.typeName in s.layouts {
      var next := v.awaitee.value;
      if limit > 1 {
        var rest := LeafHasTrail(s, base + next.offset, next.typeName, limit - 1);
        TrailCons(s, base, typeName, v, rest);
        links := [Link(base, typeName, v)] + rest;
        assert links[|links| - 1] == rest[|rest| - 1];
      } else {
        assert LeafFrom(s, base + next.offset, s.layouts[next.typeName], 0) == Ok(None);
      }
    }
  }

  ghost predicate LeafOf(s: Scene, base: nat, typeName: string, leaf: Option<string>) {
    exists links :: ReadsLeaf(s, base, typeName, 64, links, leaf)
  }

  /** The leaf is the type the awaitees lead to in memory, within 64 coroutines. */
  lemma LeafIsRead(s: Scene, base: nat, typeName: string, leaf: Option<string>)
    requires typeName in s.layouts
    ensures LeafType(s, base, s.layouts[typeName]) == Ok(leaf) <==> LeafOf(s, base, typeName, leaf)
  {
    hide LeafFrom, ReadsLeaf;
    if LeafType(s, base, s.layouts[typeName]) == Ok(leaf) {
      var links := LeafHasTrail(s, base, typeName, 64);
    }
    forall links | ReadsLeaf(s, base, typeName, 64, links, leaf)
      ensures LeafType(s, base, s.layouts[typeName]) == Ok(leaf)
    {
      TrailGivesLeaf(s, base, typeName, 64, links, leaf);
    }
  }

  // ---- State and wake cause --------------------------------------------------------------------

  /** The state a header word or, without one, the variant memory selects stands for. */
  ghost predicate Bare(s: Scene, v: VariantInfo, header: Option<nat>, bare: TaskState) {
    match header
    case None =>
      if v.kind.Unresumed? then bare == Runnable
      else if v.kind.Suspend? then bare.Blocked?
      else bare == Completed
    case Some(addr) =>
      var bytes := s.view(addr, 8);
      bytes.Some?
      && bare == HeaderState(FromLE(if |bytes.value| > 8 then bytes.value[..8] else bytes.value))
  }

  /** A parked task waits for what its leaf is classified as. */
  function Waiting(s: Scene, bare: TaskState, leaf: Option<string>): TaskState {
    if !bare.Blocked? then bare
    else Blocked(if leaf.Some? then s.classify(leaf.value).block else UnknownReason)
  }

  /** State and wake cause as memory tells them. */
  ghost predicate Observed(s: Scene, base: nat, typeName: string, header: Option<nat>, state: TaskState,
                           wake: WakeCause) {
    exists v, leaf, bare ::
      && Selects(s, base, typeName, v) && LeafOf(s, base, typeName, leaf) && Bare(s, v, header, bare)
      && state == Waiting(s, bare, leaf)
      && wake == if leaf.Some? then s.classify(leaf.value).wake else UnknownCause
  }

  lemma BareState(s: Scene, v: VariantInfo, header: Option<nat>, bare: TaskState)
    ensures BaseState(s, v, header) == Ok(bare) ==> Bare(s, v, header, bare)
    ensures Bare(s, v, header, bare) ==>
              BaseState(s, v, header).Ok?
              && (BaseState(s, v, header).value == bare || (bare.Blocked? && BaseState(s, v, header).value.Blocked?))
  {
    hide HeaderState, FromLE;
  }

  lemma StateFound(s: Scene, base: nat, typeName: string, header: Option<nat>)
    requires typeName in s.layouts
    requires StateOf(s, base, s.layouts[typeName], header).Ok? && WakeOf(s, base, s.layouts[typeName]).Ok?
    ensures Observed(s, base, typeName, header, StateOf(s, base, s.layouts[typeName], header).value,
                     WakeOf(s, base, s.layouts[typeName]).value)
  {
    hide ActiveVariant, BaseState, Bare, Selects, LeafType, LeafOf;
    var layout := s.layouts[typeName];
    SelectsActive(s, base, typeName);
    var v, leaf := ActiveVariant(s, base, layout).value, LeafType(s, base, layout).value;
    var bare := BaseState(s, v, header).value;
    BareState(s, v, header, bare);
    LeafIsRead(s, base, typeName, leaf);
    assert Bare(s, v, header, bare);
  }

  lemma StateComputed(s: Scene, base: nat, typeName: string, header: Option<nat>, v: VariantInfo, leaf: Option<string>,
                      bare: TaskState)
    requires typeName in s.layouts && Selects(s, base, typeName, v) && LeafOf(s, base, typeName, leaf)
    requires Bare(s, v, header, bare)
    ensures StateOf(s, base, s.layouts[typeName], header) == Ok(Waiting(s, bare, leaf))
    ensures WakeOf(s, base, s.layouts[typeName]) == Ok(if leaf.Some? then s.classify(leaf.value).wake else UnknownCause)
  {
    hide ActiveVariant, BaseState, Bare, Selects, LeafType, LeafOf;
    SelectsActive(s, base, typeName);
    BareState(s, v, header, bare);
    LeafIsRead(s, base, typeName, leaf);
  }

  /** State and wake cause can be read, and are these, exactly when memory tells so. */
  lemma StateIsRead(s: Scene, base: nat, typeName: string, header: Option<nat>, state: TaskState, wake: WakeCause)
    requires typeName in s.layouts
    ensures StateOf(s, base, s.layouts[typeName], header) == Ok(state)
            && WakeOf(s, base, s.layouts[typeName]) == Ok(wake)
       <==> Observed(s, base, typeName, header, state, wake)
  {
    hide StateOf, WakeOf, Bare, Selects, LeafOf, Waiting;
    var layout := s.layouts[typeName];
    if StateOf(s, base, layout, header) == Ok(state) && WakeOf(s, base, layout) == Ok(wake) {
      StateFound(s, base, typeName, header);
    }
    if Observed(s, base, typeName, header, state, wake) {
      var v, leaf, bare :|
        && Selects(s, base, typeName, v) && LeafOf(s, base, typeName, leaf) && Bare(s, v, header, bare)
        && state == Waiting(s, bare, leaf)
        && wake == if leaf.Some? then s.classify(leaf.value).wake else UnknownCause;
      StateComputed(s, base, typeName, header, v, leaf, bare);
    }
  }
}
