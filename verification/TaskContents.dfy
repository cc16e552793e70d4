/** What a decoded task tree says of memory: each node's children are those of the
    variant memory selects, at their places inside it. */
module TaskContents {
  import opened Common
  import opened TraceFormat
  import opened TaskTree
  import opened AwaitStack
  import opened AwaitChain
  import opened FanOutWalk
  import opened DecodeTasks

  // ---- Children and memory --------------------------------------------------------------

  /** `at` are, in order, the indices of the nodes with this parent. */
  ghost predicate ChildrenAt(nodes: seq<Node>, parent: TaskId, at: seq<nat>) {
    && Ascending(at) && (forall c :: 0 <= c < |at| ==> at[c] < |nodes|)
    && (forall j: nat :: j < |nodes| ==> (nodes[j].parent == Some(parent) <==> j in at))
  }

  /** The nodes at these indices are, one for one, the inline children of a variant of the coroutine
      at `base`: each lies at its offset from that base, has its type, and is in the state its
      own memory tells. */
  ghost predicate Mirrors(s: Scene, nodes: seq<Node>, base: nat, children: seq<ChildRef>, at: seq<nat>)
    requires forall c :: 0 <= c < |at| ==> at[c] < |nodes|
  {
    && |at| == |children|
    && (forall c :: 0 <= c < |at| ==> Mirror(s, nodes[at[c]].data, base, children[c]))
  }

  ghost predicate Mirror(s: Scene, task: Task, base: nat, child: ChildRef) {
    task.base == base + child.offset && task.typeName == child.typeName && Told(s, task, None)
  }

  /** Memory tells the state and the wake cause of this task, with or without a header. */
  ghost predicate Told(s: Scene, task: Task, header: Option<nat>) {
    Observed(s, task.base, task.typeName, header, task.state, task.wake)
  }

  /** Node `i` is as memory says: its pushed children are those of the variant selected there. */
  ghost predicate ReadsTrue(s: Scene, nodes: seq<Node>, i: nat)
    requires i < |nodes|
  {
    exists v, at :: TrueWith(s, nodes, i, v, at)
  }

  ghost predicate TrueWith(s: Scene, nodes: seq<Node>, i: nat, v: VariantInfo, at: seq<nat>)
    requires i < |nodes|
  {
    && Selects(s, nodes[i].data.base, nodes[i].data.typeName, v)
    && ChildrenAt(nodes, nodes[i].id, at) && Mirrors(s, nodes, nodes[i].data.base, v.children, at)
  }

  // ---- Segments of the walk ------------------------------------------------------------------

  /** All ids of a walked segment, and all parents but `top`, are in range. */
  ghost predicate Within(nodes: seq<Node>, top: Option<TaskId>, lo: TaskId, hi: TaskId) {
    forall i :: 0 <= i < |nodes| ==>
      && lo <= nodes[i].id < hi
      && (nodes[i].parent == top || (nodes[i].parent.Some? && lo <= nodes[i].parent.value < hi))
  }

  ghost predicate AllTrue(s: Scene, nodes: seq<Node>) {
    forall i :: 0 <= i < |nodes| ==> ReadsTrue(s, nodes, i)
  }

  /** No node of this segment hangs under any node of that one. */
  ghost predicate Apart(a: seq<Node>, b: seq<Node>) {
    forall i, j :: 0 <= i < |a| && 0 <= j < |b| ==> b[j].parent != Some(a[i].id)
  }

  lemma TrueBefore(s: Scene, a: seq<Node>, b: seq<Node>, i: nat)
    requires i < |a| && ReadsTrue(s, a, i) && Apart(a, b)
    ensures ReadsTrue(s, a + b, i)
  {
    hide Told, Selects;
    var v, at :| TrueWith(s, a, i, v, at);
    assert TrueWith(s, a + b, i, v, at);
  }

  lemma TrueAfter(s: Scene, a: seq<Node>, b: seq<Node>, i: nat)
    requires i < |b| && ReadsTrue(s, b, i) && Apart(b, a)
    ensures ReadsTrue(s, a + b, |a| + i)
  {
    hide Told, Selects, ChildrenAt, Mirrors;
    var v, at :| TrueWith(s, b, i, v, at);
    var all, at' := a + b, Shift(at, |a|);
    assert all[|a| + i] == b[i];
    ChildrenAfter(a, b, b[i].id, at);
    MirrorsAfter(s, a, b, b[i].data.base, v.children, at);
    assert TrueWith(s, all, |a| + i, v, at');
  }

  lemma ChildrenAfter(a: seq<Node>, b: seq<Node>, parent: TaskId, at: seq<nat>)
    requires ChildrenAt(b, parent, at) && forall j :: 0 <= j < |a| ==> a[j].parent != Some(parent)
    ensures ChildrenAt(a + b, parent, Shift(at, |a|))
  {
    MovedBack(at, |a|);
    var all, at' := a + b, Shift(at, |a|);
    forall j: nat | j < |all| ensures all[j].parent == Some(parent) <==> j in at' {
      if j >= |a| {
        assert all[j] == b[j - |a|];
      }
    }
  }

  lemma MirrorsAfter(s: Scene, a: seq<Node>, b: seq<Node>, base: nat, children: seq<ChildRef>, at: seq<nat>)
    requires forall c :: 0 <= c < |at| ==> at[c] < |b|
    requires Mirrors(s, b, base, children, at)
    ensures forall c :: 0 <= c < |at| ==> Shift(at, |a|)[c] < |a + b|
    ensures Mirrors(s, a + b, base, children, Shift(at, |a|))
  {
    forall c | 0 <= c < |at| ensures (a + b)[Shift(at, |a|)[c]] == b[at[c]] {
    }
  }

  lemma MovedBack(at: seq<nat>, n: nat)
    ensures forall j: nat :: j in Shift(at, n) <==> j >= n && j - n in at
  {
    forall j: nat | j >= n && j - n in at ensures j in Shift(at, n) {
      var k :| 0 <= k < |at| && at[k] == j - n;
      assert Shift(at, n)[k] == j;
    }
  }

  lemma AllTrueConcat(s: Scene, a: seq<Node>, b: seq<Node>)
    requires AllTrue(s, a) && AllTrue(s, b) && Apart(a, b) && Apart(b, a)
    ensures AllTrue(s, a + b)
  {
    hide ReadsTrue;
    forall i | 0 <= i < |a + b| ensures ReadsTrue(s, a + b, i) {
      if i < |a| {
        TrueBefore(s, a, b, i);
      } else {
        TrueAfter(s, a, b, i - |a|);
      }
    }
  }

  /** The segment of a coroutine's fan-out: its tops are, one for one, the children given. */
  ghost predicate Spans(s: Scene, nodes: seq<Node>, parent: TaskId, kids: seq<ChildRef>, at: seq<nat>) {
    ChildrenAt(nodes, parent, at) && Mirrors(s, nodes, 0, kids, at)
  }

  /** One walked coroutine: its own node first, as given, and everything below it true to memory. */
  lemma {:induction false} ExpandTrue(s: Scene, r: Root, parent: Option<TaskId>, p: Progress)
    requires Expand(s, r, parent, p).Ok? && r.id < p.nextId
    requires parent.Some? ==> parent.value < p.nextId && parent.value != r.id
    ensures var added := Pushed(p, Expand(s, r, parent, p).value);
            && |added| > 0 && AllTrue(s, added)
            && added[0].id == r.id && added[0].parent == parent
            && added[0].data.base == r.base && added[0].data.typeName == r.typeName
            && Told(s, added[0].data, r.header)
            && Within(added[1..], Some(r.id), p.nextId, Expand(s, r, parent, p).value.nextId)
    decreases Room(p), 0
  {
    hide Told, NodeOf, FanOut, Selects, AllTrue, Within, Spans;
    NodeIs(s, r, parent);
    var node := NodeOf(s, r, parent).value;
    var pushed := p.(out := p.out + [node]);
    var kids := FanOut(s, r.base, s.layouts[r.typeName]).value;
    var q := Expand(s, r, parent, p).value;
    var at := KidsTrue(s, kids, r.id, pushed);
    assert KidsSegment(s, kids, r.id, pushed, q, at);
    var below := Pushed(pushed, q);
    PushedConcat(p, pushed, q);
    assert Pushed(p, pushed) == [node];
    assert Pushed(p, q) == [node] + below && Pushed(p, q)[1..] == below;
    var v := FanOutIs(s, r.base, r.typeName);
    TopTrue(s, node, below, r.base, r.typeName, v, kids, at, p.nextId, q.nextId);
  }

  lemma NodeIs(s: Scene, r: Root, parent: Option<TaskId>)
    requires NodeOf(s, r, parent).Ok?
    ensures r.typeName in s.layouts
    ensures var n := NodeOf(s, r, parent).value;
            && n.id == r.id && n.parent == parent && n.data.base == r.base && n.data.typeName == r.typeName
            && Told(s, n.data, r.header)
  {
    hide StateOf, WakeOf, Observed;
    var task := NodeOf(s, r, parent).value.data;
    StateIsRead(s, r.base, r.typeName, r.header, task.state, task.wake);
  }

  /** The fan-out is that of the variant memory selects, each child at its offset from the base. */
  lemma FanOutIs(s: Scene, base: nat, typeName: string) returns (v: VariantInfo)
    requires typeName in s.layouts && FanOut(s, base, s.layouts[typeName]).Ok?
    ensures Selects(s, base, typeName, v)
    ensures var kids := FanOut(s, base, s.layouts[typeName]).value;
            && |kids| == |v.children|
            && forall c :: 0 <= c < |kids| ==>
                 kids[c].offset == base + v.children[c].offset && kids[c].typeName == v.children[c].typeName
  {
    SelectsActive(s, base, typeName);
    hide Selects, FromLE;
    v := ActiveVariant(s, base, s.layouts[typeName]).value;
  }

  lemma TopTrue(s: Scene, node: Node, below: seq<Node>, base: nat, typeName: string, v: VariantInfo,
                kids: seq<ChildRef>, at: seq<nat>, lo: TaskId, hi: TaskId)
    requires AllTrue(s, below) && Within(below, Some(node.id), lo, hi) && Spans(s, below, node.id, kids, at)
    requires node.id < lo && node.data.base == base && node.data.typeName == typeName
    requires node.parent.Some? ==> node.parent.value < lo && node.parent.value != node.id
    requires Selects(s, base, typeName, v) && |kids| == |v.children|
    requires forall c :: 0 <= c < |kids| ==>
               kids[c].offset == base + v.children[c].offset && kids[c].typeName == v.children[c].typeName
    ensures AllTrue(s, [node] + below)
  {
    hide Told, ReadsTrue, Selects;
    var all, at' := [node] + below, Shift(at, 1);
    MovedBack(at, 1);
    forall j: nat | j < |all| ensures all[j].parent == Some(node.id) <==> j in at' {
      if j > 0 {
        assert all[j] == below[j - 1];
      }
    }
    assert Mirrors(s, all, base, v.children, at');
    assert TrueWith(s, all, 0, v, at');
    TrueFound(s, all, 0, v, at');
    forall i | 0 < i < |all| ensures ReadsTrue(s, all, i) {
      assert ReadsTrue(s, below, i - 1);
      TrueAfter(s, [node], below, i - 1);
    }
  }

  lemma TrueFound(s: Scene, nodes: seq<Node>, i: nat, v: VariantInfo, at: seq<nat>)
    requires i < |nodes| && TrueWith(s, nodes, i, v, at)
    ensures ReadsTrue(s, nodes, i)
  {
  }

  lemma {:induction false} KidsTrue(s: Scene, kids: seq<ChildRef>, parent: TaskId, p: Progress) returns (at: seq<nat>)
    requires ExpandKids(s, kids, parent, p).Ok? && parent < p.nextId
    ensures var q := ExpandKids(s, kids, parent, p).value; KidsSegment(s, kids, parent, p, q, at)
    decreases Room(p), |kids| + 1
  {
    hide KidsSegment, FirstSegment;
    if kids == [] {
      at := [];
      NoneTrue(s, parent, p);
    } else {
      hide ExpandKids;
      var q := ExpandKids(s, kids, parent, p).value;
      var mid := FirstKidTrue(s, kids, parent, p);
      var rest := KidsTrue(s, kids[1..], parent, mid);
      at := JoinSegments(s, kids, parent, p, mid, q, rest);
    }
  }

  /** What has been pushed for these children. */
  ghost predicate KidsSegment(s: Scene, kids: seq<ChildRef>, parent: TaskId, p: Progress, q: Progress, at: seq<nat>) {
    && p.out <= q.out && p.nextId <= q.nextId && AllTrue(s, Pushed(p, q))
    && Within(Pushed(p, q), Some(parent), p.nextId, q.nextId) && Spans(s, Pushed(p, q), parent, kids, at)
  }

  /** What has been pushed for the first of them. */
  ghost predicate FirstSegment(s: Scene, kid: ChildRef, parent: TaskId, p: Progress, mid: Progress) {
    && p.out <= mid.out && p.nextId < mid.nextId
    && var a := Pushed(p, mid);
       && a != [] && a[0].id == p.nextId && a[0].parent == Some(parent) && Mirror(s, a[0].data, 0, kid)
       && AllTrue(s, a) && Within(a[1..], Some(p.nextId), p.nextId + 1, mid.nextId)
  }

  lemma JoinSegments(s: Scene, kids: seq<ChildRef>, parent: TaskId, p: Progress, mid: Progress, q: Progress,
                     rest: seq<nat>)
      returns (at: seq<nat>)
    requires kids != [] && parent < p.nextId
    requires FirstSegment(s, kids[0], parent, p, mid) && KidsSegment(s, kids[1..], parent, mid, q, rest)
    ensures KidsSegment(s, kids, parent, p, q, at)
  {
    hide Mirror, AllTrue, Within, Spans, Pushed;
    PushedConcat(p, mid, q);
    var a, b := Pushed(p, mid), Pushed(mid, q);
    JoinKids(s, a, b, parent, kids, rest, p.nextId, mid.nextId, q.nextId);
    at := [0] + Shift(rest, |a|);
  }

  /** The first branch is walked, and then the others from where it ended. */
  lemma {:induction false} FirstKidTrue(s: Scene, kids: seq<ChildRef>, parent: TaskId, p: Progress)
      returns (mid: Progress)
    requires kids != [] && ExpandKids(s, kids, parent, p).Ok? && parent < p.nextId
    ensures ExpandKids(s, kids[1..], parent, mid) == ExpandKids(s, kids, parent, p)
    ensures Room(mid) < Room(p) && parent < mid.nextId && FirstSegment(s, kids[0], parent, p, mid)
    decreases Room(p), 1
  {
    hide Told, AllTrue, Within, Expand;
    var child := Root(p.nextId, kids[0].offset, kids[0].typeName, None);
    var p1 := p.(nextId := p.nextId + 1);
    mid := Expand(s, child, Some(parent), p1).value;
    ExpandTrue(s, child, Some(parent), p1);
    ExpandNumbers(s, child, Some(parent), p1);
    assert Pushed(p, mid) == Pushed(p1, mid);
    Bounded(s, child, parent, p1);
  }

  lemma Bounded(s: Scene, r: Root, parent: TaskId, p: Progress)
    requires Expand(s, r, Some(parent), p).Ok?
    ensures |p.out| < |Expand(s, r, Some(parent), p).value.out| <= MAX_TASKS
  {
  }

  lemma NoneTrue(s: Scene, parent: TaskId, p: Progress)
    ensures KidsSegment(s, [], parent, p, p, [])
  {
    assert Pushed(p, p) == [];
  }

  /** The first child's segment, then those of the others. */
  lemma JoinKids(s: Scene, a: seq<Node>, b: seq<Node>, parent: TaskId, kids: seq<ChildRef>, rest: seq<nat>,
                 lo: TaskId, mid: TaskId, hi: TaskId)
    requires kids != [] && a != [] && parent < lo && lo < mid <= hi
    requires a[0].id == lo && a[0].parent == Some(parent)
    requires Mirror(s, a[0].data, 0, kids[0])
    requires AllTrue(s, a) && Within(a[1..], Some(lo), lo + 1, mid)
    requires AllTrue(s, b) && Within(b, Some(parent), mid, hi) && Spans(s, b, parent, kids[1..], rest)
    ensures AllTrue(s, a + b) && Within(a + b, Some(parent), lo, hi)
    ensures Spans(s, a + b, parent, kids, [0] + Shift(rest, |a|))
  {
    hide Mirror, AllTrue, Spans;
    forall i | 1 <= i < |a|
      ensures lo < a[i].id < mid && a[i].parent.Some? && lo <= a[i].parent.value < mid
    {
      assert a[i] == a[1..][i - 1];
    }
    assert Apart(a, b) && Apart(b, a);
    AllTrueConcat(s, a, b);
    KidsJoined(s, a, b, parent, kids, rest);
  }

  lemma ChildIndices(a: seq<Node>, b: seq<Node>, parent: TaskId, rest: seq<nat>)
    requires a != [] && a[0].parent == Some(parent) && forall i :: 1 <= i < |a| ==> a[i].parent != Some(parent)
    requires ChildrenAt(b, parent, rest)
    ensures ChildrenAt(a + b, parent, [0] + Shift(rest, |a|))
  {
    ShiftMembers(rest, |a|);
    var all, at := a + b, [0] + Shift(rest, |a|);
    forall j: nat | j < |all| ensures all[j].parent == Some(parent) <==> j in at {
      if j >= |a| {
        assert all[j] == b[j - |a|];
      }
    }
  }

  lemma KidsJoined(s: Scene, a: seq<Node>, b: seq<Node>, parent: TaskId, kids: seq<ChildRef>, rest: seq<nat>)
    requires kids != [] && a != [] && a[0].parent == Some(parent) && Mirror(s, a[0].data, 0, kids[0])
    requires (forall i :: 1 <= i < |a| ==> a[i].parent != Some(parent)) && Spans(s, b, parent, kids[1..], rest)
    ensures Spans(s, a + b, parent, kids, [0] + Shift(rest, |a|))
  {
    ChildIndices(a, b, parent, rest);
    hide Mirror, Ascending;
    var all, at := a + b, [0] + Shift(rest, |a|);
    forall c | 0 <= c < |at| ensures at[c] < |all| && Mirror(s, all[at[c]].data, 0, kids[c]) {
      if c > 0 {
        assert at[c] == rest[c - 1] + |a| && all[at[c]] == b[rest[c - 1]] && kids[c] == kids[1..][c - 1];
      }
    }
  }

  // ---- All roots --------------------------------------------------------------------------------

  /** All ids are those of the roots or fresh ones in range, and so are the parents. */
  ghost predicate RootedWithin(nodes: seq<Node>, roots: seq<Root>, lo: TaskId, hi: TaskId) {
    forall i :: 0 <= i < |nodes| ==>
      && (IsRootId(roots, nodes[i].id) || lo <= nodes[i].id < hi)
      && (nodes[i].parent.Some? ==>
            IsRootId(roots, nodes[i].parent.value) || lo <= nodes[i].parent.value < hi)
  }

  ghost predicate IsRootId(roots: seq<Root>, id: TaskId) {
    exists k :: 0 <= k < |roots| && roots[k].id == id
  }

  /** The parentless nodes are, one for one, the roots, where and what they were given to be. */
  ghost predicate RootsMirrored(s: Scene, nodes: seq<Node>, roots: seq<Root>, at: seq<nat>) {
    && |at| == |roots| && Ascending(at)
    && (forall j: nat :: j < |nodes| ==> (nodes[j].parent.None? <==> j in at))
    && (forall k :: 0 <= k < |at| ==>
          at[k] < |nodes| && nodes[at[k]].id == roots[k].id && RootMirror(s, nodes[at[k]].data, roots[k]))
  }

  ghost predicate RootMirror(s: Scene, task: Task, r: Root) {
    task.base == r.base && task.typeName == r.typeName && Told(s, task, r.header)
  }

  lemma {:induction false} RootsTrue(s: Scene, roots: seq<Root>, p: Progress) returns (at: seq<nat>)
    requires ExpandRoots(s, roots, p).Ok? && DistinctRoots(roots)
    requires forall k :: 0 <= k < |roots| ==> roots[k].id < p.nextId
    ensures var q := ExpandRoots(s, roots, p).value;
            && AllTrue(s, Pushed(p, q)) && RootedWithin(Pushed(p, q), roots, p.nextId, q.nextId)
            && RootsMirrored(s, Pushed(p, q), roots, at) && p.nextId <= q.nextId
    decreases |roots|
  {
    hide Told, AllTrue, RootedWithin, Within;
    var q := ExpandRoots(s, roots, p).value;
    if roots == [] {
      at := [];
      assert Pushed(p, q) == [];
      NoRootsTrue(s, p.nextId);
    } else {
      hide Expand;
      var mid := Expand(s, roots[0], None, p).value;
      ExpandTrue(s, roots[0], None, p);
      ExpandNumbers(s, roots[0], None, p);
      assert forall k :: 0 <= k < |roots[1..]| ==> roots[1..][k] == roots[k + 1];
      var rest := RootsTrue(s, roots[1..], mid);
      PushedConcat(p, mid, q);
      JoinTrueRoots(s, Pushed(p, mid), Pushed(mid, q), roots, rest, p.nextId, mid.nextId, q.nextId);
      at := [0] + Shift(rest, |Pushed(p, mid)|);
    }
  }

  lemma NoRootsTrue(s: Scene, lo: TaskId)
    ensures AllTrue(s, []) && RootedWithin([], [], lo, lo)
  {
  }

  lemma JoinTrueRoots(s: Scene, a: seq<Node>, b: seq<Node>, roots: seq<Root>, rest: seq<nat>,
                      lo: TaskId, mid: TaskId, hi: TaskId)
    requires roots != [] && a != [] && lo <= mid <= hi && DistinctRoots(roots)
    requires forall k :: 0 <= k < |roots| ==> roots[k].id < lo
    requires a[0].id == roots[0].id && a[0].parent.None?
    requires RootMirror(s, a[0].data, roots[0])
    requires AllTrue(s, a) && Within(a[1..], Some(roots[0].id), lo, mid)
    requires AllTrue(s, b) && RootedWithin(b, roots[1..], mid, hi) && RootsMirrored(s, b, roots[1..], rest)
    ensures AllTrue(s, a + b) && RootedWithin(a + b, roots, lo, hi)
    ensures RootsMirrored(s, a + b, roots, [0] + Shift(rest, |a|))
  {
    hide Told, AllTrue, RootsMirrored;
    FirstRoot(a, roots, lo, mid);
    OtherRoots(b, roots, mid, hi);
    assert Apart(a, b) && Apart(b, a);
    AllTrueConcat(s, a, b);
    assert RootedWithin(a + b, roots, lo, hi);
    RootsJoined(s, a, b, roots, rest);
  }

  lemma FirstRoot(a: seq<Node>, roots: seq<Root>, lo: TaskId, mid: TaskId)
    requires roots != [] && a != [] && a[0].id == roots[0].id && a[0].parent.None?
    requires Within(a[1..], Some(roots[0].id), lo, mid)
    ensures RootedWithin(a, roots, lo, mid)
    ensures forall i :: 0 <= i < |a| ==> a[i].id == roots[0].id || lo <= a[i].id < mid
    ensures forall i :: 1 <= i < |a| ==> a[i].parent.Some?
    ensures forall i :: 1 <= i < |a| ==> a[i].parent.value == roots[0].id || lo <= a[i].parent.value < mid
  {
    assert IsRootId(roots, roots[0].id);
    forall i | 1 <= i < |a|
      ensures lo <= a[i].id < mid && a[i].parent.Some?
      ensures a[i].parent.value == roots[0].id || lo <= a[i].parent.value < mid
    {
      assert a[i] == a[1..][i - 1];
    }
  }

  lemma OtherRoots(b: seq<Node>, roots: seq<Root>, mid: TaskId, hi: TaskId)
    requires roots != [] && RootedWithin(b, roots[1..], mid, hi) && DistinctRoots(roots)
    ensures RootedWithin(b, roots, mid, hi)
    ensures forall i :: 0 <= i < |b| ==> b[i].id != roots[0].id || mid <= b[i].id
    ensures forall i :: 0 <= i < |b| && b[i].parent.Some? ==>
              (b[i].parent.value != roots[0].id || mid <= b[i].parent.value)
    ensures forall i :: 0 <= i < |b| ==> IsRootId(roots, b[i].id) || mid <= b[i].id
    ensures forall i :: 0 <= i < |b| && b[i].parent.Some? ==>
              (IsRootId(roots, b[i].parent.value) || mid <= b[i].parent.value)
  {
    forall id | IsRootId(roots[1..], id) ensures IsRootId(roots, id) && id != roots[0].id {
      var k :| 0 <= k < |roots[1..]| && roots[1..][k].id == id;
      assert roots[k + 1].id == id;
    }
  }

  lemma RootIndices(a: seq<Node>, b: seq<Node>, rest: seq<nat>)
    requires a != [] && a[0].parent.None? && forall i :: 1 <= i < |a| ==> a[i].parent.Some?
    requires Ascending(rest) && forall k :: 0 <= k < |rest| ==> rest[k] < |b|
    requires forall j: nat :: j < |b| ==> (b[j].parent.None? <==> j in rest)
    ensures var at := [0] + Shift(rest, |a|);
            && Ascending(at) && (forall k :: 0 <= k < |at| ==> at[k] < |a + b|)
            && forall j: nat :: j < |a + b| ==> ((a + b)[j].parent.None? <==> j in at)
  {
    ShiftMembers(rest, |a|);
    var all, at := a + b, [0] + Shift(rest, |a|);
    forall j: nat | j < |all| ensures all[j].parent.None? <==> j in at {
      if j >= |a| {
        assert all[j] == b[j - |a|];
      }
    }
  }

  lemma RootsJoined(s: Scene, a: seq<Node>, b: seq<Node>, roots: seq<Root>, rest: seq<nat>)
    requires roots != [] && a != [] && a[0].id == roots[0].id && a[0].parent.None?
    requires RootMirror(s, a[0].data, roots[0])
    requires forall i :: 1 <= i < |a| ==> a[i].parent.Some?
    requires RootsMirrored(s, b, roots[1..], rest)
    ensures RootsMirrored(s, a + b, roots, [0] + Shift(rest, |a|))
  {
    RootIndices(a, b, rest);
    hide RootMirror, Ascending;
    var all, at := a + b, [0] + Shift(rest, |a|);
    forall k | 0 <= k < |at|
      ensures at[k] < |all| && all[at[k]].id == roots[k].id && RootMirror(s, all[at[k]].data, roots[k])
    {
      if k > 0 {
        assert at[k] == rest[k - 1] + |a| && all[at[k]] == b[rest[k - 1]] && roots[k] == roots[1..][k - 1];
      }
    }
  }

  /** A walk of distinct roots is true to memory: its parentless nodes are the roots, where
      and what they were given to be, and the nodes under each node are, one for one and in
      order, the inline children of the variant memory selects for it, each at its
      offset from that node's base and with its type. */
  lemma WalkReadsMemory(s: Scene, roots: seq<Root>) returns (at: seq<nat>)
    requires Enumerate(s, roots).Ok? && DistinctRoots(roots)
    ensures var nodes := Enumerate(s, roots).value;
            && RootsMirrored(s, nodes, roots, at)
            && forall i :: 0 <= i < |nodes| ==> ReadsTrue(s, nodes, i)
  {
    hide AllTrue, RootsMirrored, RootedWithin;
    var p := Progress(FirstFresh(roots), []);
    at := RootsTrue(s, roots, p);
    var q := ExpandRoots(s, roots, p).value;
    assert Pushed(p, q) == q.out;
    EachTrue(s, q.out);
  }

  lemma EachTrue(s: Scene, nodes: seq<Node>)
    requires AllTrue(s, nodes)
    ensures forall i :: 0 <= i < |nodes| ==> ReadsTrue(s, nodes, i)
  {
  }

  // ---- The tree -------------------------------------------------------------------------------------

  lemma {:induction false} AscendingUnique(a: seq<nat>, b: seq<nat>)
    requires Ascending(a) && Ascending(b) && forall x: nat :: x in a <==> x in b
    ensures a == b
    decreases |a|
  {
    assert b != [] ==> b[0] in b;
    if a != [] {
      assert a[0] in b && b != [];
      var last, end := a[|a| - 1], b[|b| - 1];
      assert last in b && end in a;
      assert last == end;
      var a', b' := a[..|a| - 1], b[..|b| - 1];
      forall x: nat ensures x in a' <==> x in b' {
        DropsLast(a, x);
        DropsLast(b, x);
      }
      AscendingUnique(a', b');
      assert a == a' + [last] && b == b' + [end];
    }
  }

  lemma DropsLast(a: seq<nat>, x: nat)
    requires a != [] && Ascending(a)
    ensures x in a[..|a| - 1] <==> x in a && x != a[|a| - 1]
  {
  }

  function IdsAt(nodes: seq<Node>, at: seq<nat>): (r: seq<TaskId>)
    requires forall c :: 0 <= c < |at| ==> at[c] < |nodes|
    ensures |r| == |at| && forall c :: 0 <= c < |at| ==> r[c] == nodes[at[c]].id
  {
    seq(|at|, c requires 0 <= c < |at| => nodes[at[c]].id)
  }

  /** A tree's children of a node are the walk's, in the walk's order. */
  lemma ChildrenAreWalked(t: Tree<Task>, nodes: seq<Node>, id: TaskId, at: seq<nat>, lo: TaskId, hi: TaskId)
    requires ValidTree(t) && Holds(t.nodes, nodes) && ChildrenNumbered(nodes, lo, hi) && ChildrenAt(nodes, id, at)
    ensures t.Children(id) == IdsAt(nodes, at)
  {
    var ids := IdsAt(nodes, at);
    assert Listed(t.Children(id), t.nodes, t.nodes.Keys, Some(id));
    forall c, d | 0 <= c < d < |ids| ensures ids[c] < ids[d] {
      assert nodes[at[c]].parent == Some(id) && nodes[at[d]].parent == Some(id) by {
        assert at[c] in at && at[d] in at;
      }
    }
    forall x: nat ensures x in t.Children(id) <==> x in ids {
      if x in t.Children(id) {
        assert IsId(nodes, x);
        var j: nat :| j < |nodes| && nodes[j].id == x;
        assert nodes[j].parent == Some(id) && j in at;
        var c :| 0 <= c < |at| && at[c] == j;
        assert ids[c] == x;
      }
      if x in ids {
        var c :| 0 <= c < |ids| && ids[c] == x;
        assert at[c] in at && nodes[at[c]].parent == Some(id);
      }
    }
    AscendingUnique(t.Children(id), ids);
  }

  /** The children a tree lists under a node are those memory selects for it. */
  ghost predicate ChildrenTold(s: Scene, t: Tree<Task>, id: TaskId, v: VariantInfo)
    requires id in t.nodes
  {
    var data := t.nodes[id].data;
    && Selects(s, data.base, data.typeName, v) && |t.Children(id)| == |v.children|
    && forall c :: 0 <= c < |v.children| ==>
         t.Children(id)[c] in t.nodes && Mirror(s, t.nodes[t.Children(id)[c]].data, data.base, v.children[c])
  }

  ghost predicate NodeTold(s: Scene, t: Tree<Task>, id: TaskId)
    requires id in t.nodes
  {
    exists v :: ChildrenTold(s, t, id, v)
  }

  ghost predicate RootTold(s: Scene, t: Tree<Task>, r: Root) {
    r.id in t.nodes && r.id in t.roots && RootMirror(s, t.nodes[r.id].data, r)
  }

  lemma NodeIsTold(s: Scene, t: Tree<Task>, nodes: seq<Node>, i: nat, lo: TaskId, hi: TaskId)
    requires ValidTree(t) && Holds(t.nodes, nodes) && ChildrenNumbered(nodes, lo, hi)
    requires i < |nodes| && ReadsTrue(s, nodes, i)
    ensures NodeTold(s, t, nodes[i].id)
  {
    hide ValidTree, ChildrenNumbered, Selects, Mirror;
    var v, at :| TrueWith(s, nodes, i, v, at);
    ChildrenAreWalked(t, nodes, nodes[i].id, at, lo, hi);
    forall c | 0 <= c < |at|
      ensures nodes[at[c]].id in t.nodes && t.nodes[nodes[at[c]].id] == nodes[at[c]]
    {
    }
    assert ChildrenTold(s, t, nodes[i].id, v);
  }

  /** A decoded tree is true to memory: its roots are the ones given, each node's children are,
      one for one and in order, those of the variant memory selects at it, each at its
      offset from it and of its type, and every state and wake cause is what memory tells. */
  lemma TreeReadsMemory(s: Scene, roots: seq<Root>, t: Tree<Task>)
    requires Enumerate(s, roots).Ok? && DistinctRoots(roots)
    requires ValidTree(t) && Holds(t.nodes, Enumerate(s, roots).value)
    ensures forall id :: id in t.nodes ==> NodeTold(s, t, id)
    ensures forall k :: 0 <= k < |roots| ==> RootTold(s, t, roots[k])
    ensures forall id :: id in t.roots ==> IsRootId(roots, id)
  {
    hide Enumerate, ValidTree, ReadsTrue, ChildrenNumbered, RootsMirrored, NodeTold, RootTold;
    var nodes := Enumerate(s, roots).value;
    var at := WalkReadsMemory(s, roots);
    var paths, ats := PathsOf(s, roots);
    var hi :| ChildrenNumbered(nodes, FirstFresh(roots), hi);
    forall id | id in t.nodes ensures NodeTold(s, t, id) {
      assert IsId(nodes, id);
      var i: nat :| i < |nodes| && nodes[i].id == id;
      NodeIsTold(s, t, nodes, i, FirstFresh(roots), hi);
    }
    RootsAreTold(s, roots, t, nodes, at);
  }

  lemma RootsAreTold(s: Scene, roots: seq<Root>, t: Tree<Task>, nodes: seq<Node>, at: seq<nat>)
    requires ValidTree(t) && Holds(t.nodes, nodes) && RootsMirrored(s, nodes, roots, at) && DistinctRoots(roots)
    ensures forall k :: 0 <= k < |roots| ==> RootTold(s, t, roots[k])
    ensures forall id :: id in t.roots ==> IsRootId(roots, id)
  {
    hide RootMirror;
    forall k | 0 <= k < |roots| ensures RootTold(s, t, roots[k]) {
      assert at[k] in at && nodes[at[k]].parent.None?;
      assert t.nodes[roots[k].id] == nodes[at[k]];
    }
    forall id | id in t.roots ensures IsRootId(roots, id) {
      assert IsId(nodes, id);
      var j: nat :| j < |nodes| && nodes[j].id == id;
      assert j in at;
      var k :| 0 <= k < |at| && at[k] == j;
      assert roots[k].id == id;
    }
  }
}
