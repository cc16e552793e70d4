/** Expanding task roots into the flat, numbered node list of the task tree. */
module FanOutWalk {
  import opened Common
  import opened TaskTree
  import opened Forest
  import opened AwaitStack

  const MAX_TASKS: nat := 0x1_0000

  datatype Root = Root(id: TaskId, base: nat, typeName: string, header: Option<nat>)

  datatype Task = Task(base: nat, typeName: string, state: TaskState, wake: WakeCause)

  type Node = TaskNode<Task>

  /** The counter for fresh ids and the nodes pushed so far. */
  datatype Progress = Progress(nextId: TaskId, out: seq<Node>)

  function Room(p: Progress): nat {
    if |p.out| >= MAX_TASKS then 0 else MAX_TASKS - |p.out|
  }

  // ---- The walk ---------------------------------------------------------------------

  function NodeOf(s: Scene, r: Root, parent: Option<TaskId>): Result<Node, DecodeError> {
    if r.typeName !in s.layouts then Err(NoLayout(r.typeName))
    else
      var state :- StateOf(s, r.base, s.layouts[r.typeName], r.header);
      var wake :- WakeOf(s, r.base, s.layouts[r.typeName]);
      Ok(TaskNode(r.id, parent, Task(r.base, r.typeName, state, wake)))
  }

  /** Push a coroutine's node, then expand its fan-out depth first. The push limit
      alone makes this end: a layout may contain itself. */
  function Expand(s: Scene, r: Root, parent: Option<TaskId>, p: Progress): (q: Result<Progress, DecodeError>)
    ensures q.Ok? ==> p.out < q.value.out && |q.value.out| <= MAX_TASKS
    decreases Room(p), 0
  {
    if |p.out| >= MAX_TASKS then Err(TooManyTasks)
    else
      var node :- NodeOf(s, r, parent);
      var kids :- FanOut(s, r.base, s.layouts[r.typeName]);
      ExpandKids(s, kids, r.id, p.(out := p.out + [node]))
  }

  function ExpandKids(s: Scene, kids: seq<ChildRef>, parent: TaskId, p: Progress): (q: Result<Progress, DecodeError>)
    ensures q.Ok? ==> p.out <= q.value.out && (|p.out| <= MAX_TASKS ==> |q.value.out| <= MAX_TASKS)
    decreases Room(p), |kids| + 1
  {
    if kids == [] then Ok(p)
    else
      var child := Root(p.nextId, kids[0].offset, kids[0].typeName, None);
      var q :- Expand(s, child, Some(parent), p.(nextId := p.nextId + 1));
      ExpandKids(s, kids[1..], parent, q)
  }

  function ExpandRoots(s: Scene, roots: seq<Root>, p: Progress): (q: Result<Progress, DecodeError>)
    ensures q.Ok? ==> p.out <= q.value.out && (|p.out| <= MAX_TASKS ==> |q.value.out| <= MAX_TASKS)
  {
    if roots == [] then Ok(p)
    else
      var q :- Expand(s, roots[0], None, p);
      ExpandRoots(s, roots[1..], q)
  }

  /** One past the largest root id, 1 if there are none. */
  function FirstFresh(roots: seq<Root>): (n: TaskId)
    ensures forall i :: 0 <= i < |roots| ==> roots[i].id < n
    ensures n == 1 || exists i :: 0 <= i < |roots| && n == roots[i].id + 1
  {
    if roots == [] then 1
    else
      var n := FirstFresh(roots[1..]);
      assert forall i :: 1 <= i < |roots| ==> roots[i] == roots[1..][i - 1];
      if roots[0].id + 1 > n then roots[0].id + 1 else
        assert n == 1 || exists i :: 0 <= i < |roots[1..]| && n == roots[1..][i].id + 1;
        n
  }

  function Enumerate(s: Scene, roots: seq<Root>): Result<seq<Node>, DecodeError> {
    var q :- ExpandRoots(s, roots, Progress(FirstFresh(roots), []));
    Ok(q.out)
  }

  // ---- As the decoder computes it --------------------------------------------------------

  method ExpandInto(s: Scene, r: Root, parent: Option<TaskId>, nextId: TaskId, out: seq<Node>)
      returns (q: Result<Progress, DecodeError>)
    ensures q == Expand(s, r, parent, Progress(nextId, out))
    decreases Room(Progress(nextId, out))
  {
    hide NodeOf, FanOut;
    if |out| >= MAX_TASKS {
      return Err(TooManyTasks);
    }
    var node := NodeOf(s, r, parent);
    if node.Err? {
      return Err(node.error);
    }
    var p := Progress(nextId, out + [node.value]);
    NodeIds(s, r, parent);
    var kids := FanOut(s, r.base, s.layouts[r.typeName]);
    if kids.Err? {
      return Err(kids.error);
    }
    var i := 0;
    assert kids.value[0..] == kids.value;
    while i < |kids.value|
      invariant 0 <= i <= |kids.value| && out < p.out
      invariant Expand(s, r, parent, Progress(nextId, out)) == ExpandKids(s, kids.value[i..], r.id, p)
    {
      var child := kids.value[i];
      assert kids.value[i..][1..] == kids.value[i + 1..];
      var step := ExpandInto(s, Root(p.nextId, child.offset, child.typeName, None), Some(r.id), p.nextId + 1, p.out);
      if step.Err? {
        return Err(step.error);
      }
      p := step.value;
      i := i + 1;
    }
    return Ok(p);
  }

  method EnumerateInto(s: Scene, roots: seq<Root>) returns (r: Result<seq<Node>, DecodeError>)
    ensures r == Enumerate(s, roots)
  {
    hide Expand;
    var p := Progress(FirstFresh(roots), []);
    var i := 0;
    assert roots[0..] == roots;
    while i < |roots|
      invariant 0 <= i <= |roots|
      invariant ExpandRoots(s, roots, Progress(FirstFresh(roots), [])) == ExpandRoots(s, roots[i..], p)
    {
      assert roots[i..][1..] == roots[i + 1..];
      var step := ExpandInto(s, roots[i], None, p.nextId, p.out);
      if step.Err? {
        return Err(step.error);
      }
      p := step.value;
      i := i + 1;
    }
    return Ok(p.out);
  }

  // ---- Numbering -------------------------------------------------------------------------

  /** What a walk pushed. */
  function Pushed(p: Progress, q: Progress): seq<Node>
    requires p.out <= q.out
  {
    q.out[|p.out|..]
  }

  /** Child nodes numbered consecutively from `first`. */
  ghost predicate Consecutive(nodes: seq<Node>, first: TaskId) {
    forall i :: 0 <= i < |nodes| ==> nodes[i].id == first + i && nodes[i].parent.Some?
  }

  lemma PushedConcat(p: Progress, q: Progress, r: Progress)
    requires p.out <= q.out <= r.out
    ensures Pushed(p, r) == Pushed(p, q) + Pushed(q, r)
  {
  }

  /** Descendants are numbered in the order they are pushed, from the first fresh id. */
  lemma {:induction false} ExpandNumbers(s: Scene, r: Root, parent: Option<TaskId>, p: Progress)
    requires Expand(s, r, parent, p).Ok?
    ensures var q := Expand(s, r, parent, p).value;
            var added := Pushed(p, q);
            && |added| > 0 && added[0].id == r.id && added[0].parent == parent
            && Consecutive(added[1..], p.nextId) && q.nextId == p.nextId + |added| - 1
    decreases Room(p), 0
  {
    hide NodeOf, FanOut;
    NodeIds(s, r, parent);
    var node := NodeOf(s, r, parent).value;
    var pushed := p.(out := p.out + [node]);
    var kids := FanOut(s, r.base, s.layouts[r.typeName]).value;
    KidsNumbers(s, kids, r.id, pushed);
    var q := Expand(s, r, parent, p).value;
    PushedConcat(p, pushed, q);
    assert Pushed(p, pushed) == [node];
    assert Pushed(p, q)[1..] == Pushed(pushed, q);
  }

  lemma NodeIds(s: Scene, r: Root, parent: Option<TaskId>)
    requires NodeOf(s, r, parent).Ok?
    ensures r.typeName in s.layouts
    ensures NodeOf(s, r, parent).value.id == r.id && NodeOf(s, r, parent).value.parent == parent
  {
  }

  lemma {:induction false} KidsNumbers(s: Scene, kids: seq<ChildRef>, parent: TaskId, p: Progress)
    requires ExpandKids(s, kids, parent, p).Ok?
    ensures var q := ExpandKids(s, kids, parent, p).value;
            Consecutive(Pushed(p, q), p.nextId) && q.nextId == p.nextId + |Pushed(p, q)|
    decreases Room(p), |kids| + 1
  {
    if kids != [] {
      hide Expand;
      var child := Root(p.nextId, kids[0].offset, kids[0].typeName, None);
      var p1 := p.(nextId := p.nextId + 1);
      var mid := Expand(s, child, Some(parent), p1).value;
      ExpandNumbers(s, child, Some(parent), p1);
      KidsNumbers(s, kids[1..], parent, mid);
      var q := ExpandKids(s, kids, parent, p).value;
      PushedConcat(p, mid, q);
      var first := Pushed(p, mid);
      assert first == Pushed(p1, mid);
      forall i | 0 <= i < |first| ensures first[i].id == p.nextId + i && first[i].parent.Some? {
        assert i > 0 ==> first[1..][i - 1] == first[i];
      }
    }
  }

  // ---- Paths ---------------------------------------------------------------------------

  function ParentOf(path: seq<TaskId>): Option<TaskId> {
    if path == [] then None else Some(Last(path))
  }

  /** Node `i` hangs below the start path or below an earlier node. */
  ghost predicate Hangs(nodes: seq<Node>, paths: seq<seq<TaskId>>, start: seq<TaskId>, i: nat)
    requires i < |nodes| == |paths|
  {
    && paths[i] != [] && Last(paths[i]) == nodes[i].id
    && var up := paths[i][..|paths[i]| - 1];
       nodes[i].parent == ParentOf(up) && (up == start || up in paths[..i])
  }

  /** `paths` are the nodes' paths below `start`, each parent listed before. */
  ghost predicate Walked(nodes: seq<Node>, paths: seq<seq<TaskId>>, start: seq<TaskId>) {
    |nodes| == |paths| && forall i :: 0 <= i < |nodes| ==> Hangs(nodes, paths, start, i)
  }

  /** Every path goes through `start` and on by a branch in `lo .. hi`. */
  ghost predicate Branches(paths: seq<seq<TaskId>>, start: seq<TaskId>, lo: TaskId, hi: TaskId) {
    forall i :: 0 <= i < |paths| ==>
      |paths[i]| > |start| && paths[i][..|start|] == start && lo <= paths[i][|start|] < hi
  }

  lemma WalkedConcat(a: seq<Node>, aPaths: seq<seq<TaskId>>, b: seq<Node>, bPaths: seq<seq<TaskId>>, start: seq<TaskId>)
    requires Walked(a, aPaths, start) && Walked(b, bPaths, start)
    ensures Walked(a + b, aPaths + bPaths, start)
  {
    var nodes, paths := a + b, aPaths + bPaths;
    forall i | 0 <= i < |nodes| ensures Hangs(nodes, paths, start, i) {
      if i < |a| {
        assert Hangs(a, aPaths, start, i);
        assert paths[..i] == aPaths[..i];
      } else {
        assert Hangs(b, bPaths, start, i - |a|);
        assert paths[..i] == aPaths + bPaths[..i - |a|];
      }
    }
  }

  lemma WalkedUnder(n: Node, below: seq<Node>, paths: seq<seq<TaskId>>, start: seq<TaskId>)
    requires n.parent == ParentOf(start) && Walked(below, paths, start + [n.id])
    ensures Walked([n] + below, [start + [n.id]] + paths, start)
  {
    var top := start + [n.id];
    assert top[..|top| - 1] == start;
    var all := [top] + paths;
    forall i | 0 <= i < |[n] + below| ensures Hangs([n] + below, all, start, i) {
      if i > 0 {
        assert Hangs(below, paths, top, i - 1);
        assert all[..i] == [top] + paths[..i - 1];
      }
    }
  }

  /** Branches below a path come after it and, in disjoint ranges, in branch order. */
  lemma BranchesOrdered(a: seq<seq<TaskId>>, b: seq<seq<TaskId>>, start: seq<TaskId>, lo: TaskId, mid: TaskId,
                        hi: TaskId)
    requires Branches(a, start, lo, mid) && Branches(b, start, mid, hi) && lo <= mid <= hi
    ensures AllBefore(a, b) && AllBefore([start], b) && Branches(a + b, start, lo, hi)
  {
    forall i, j | 0 <= i < |a| && 0 <= j < |b| ensures Before(a[i], b[j]) {
      Split(a[i], start);
      Split(b[j], start);
      BeforeBranches(start, a[i][|start|], a[i][|start| + 1..], b[j][|start|], b[j][|start| + 1..]);
    }
    forall j | 0 <= j < |b| ensures Before(start, b[j]) {
      Split(b[j], start);
      BeforeBranches(start, 0, [], b[j][|start|], b[j][|start| + 1..]);
    }
  }

  lemma Split(path: seq<TaskId>, start: seq<TaskId>)
    requires |path| > |start| && path[..|start|] == start
    ensures path == start + ([path[|start|]] + path[|start| + 1..])
  {
  }

  lemma Deeper(paths: seq<seq<TaskId>>, start: seq<TaskId>, id: TaskId, lo: TaskId, hi: TaskId)
    requires Branches(paths, start + [id], lo, hi)
    ensures Branches([start + [id]] + paths, start, id, id + 1)
  {
    var all := [start + [id]] + paths;
    forall i | 0 <= i < |all| ensures |all[i]| > |start| && all[i][..|start|] == start && all[i][|start|] == id {
      if i > 0 {
        assert all[i][..|start| + 1] == start + [id];
        assert all[i][..|start|] == all[i][..|start| + 1][..|start|];
        assert all[i][|start|] == all[i][..|start| + 1][|start|];
      }
    }
  }

  /** The paths of one expansion: through its own node, in lexicographic order. */
  lemma {:induction false} ExpandWalks(s: Scene, r: Root, parent: Option<TaskId>, p: Progress, start: seq<TaskId>)
      returns (paths: seq<seq<TaskId>>)
    requires Expand(s, r, parent, p).Ok? && parent == ParentOf(start)
    ensures var added := Pushed(p, Expand(s, r, parent, p).value);
            && Walked(added, paths, start) && Sorted(paths) && Branches(paths, start, r.id, r.id + 1)
            && |paths| > 0 && paths[0] == start + [r.id]
    decreases Room(p), 0
  {
    hide NodeOf, FanOut, Walked, Branches, Sorted, AllBefore;
    NodeIds(s, r, parent);
    var node := NodeOf(s, r, parent).value;
    var pushed := p.(out := p.out + [node]);
    var kids := FanOut(s, r.base, s.layouts[r.typeName]).value;
    var below := KidsWalk(s, kids, r.id, pushed, start + [r.id]);
    var q := Expand(s, r, parent, p).value;
    PushedConcat(p, pushed, q);
    assert Pushed(p, pushed) == [node];
    WalkedUnder(node, Pushed(pushed, q), below, start);
    NothingBranches(start + [r.id], pushed.nextId);
    BranchesOrdered([], below, start + [r.id], pushed.nextId, pushed.nextId, q.nextId);
    assert [] + below == below;
    Single(start + [r.id]);
    SortedConcat([start + [r.id]], below);
    Deeper(below, start, r.id, pushed.nextId, q.nextId);
    paths := [start + [r.id]] + below;
  }

  lemma NothingBranches(start: seq<TaskId>, n: TaskId)
    ensures Branches([], start, n, n) && Walked([], [], start) && Sorted([])
  {
  }

  lemma Single(path: seq<TaskId>)
    ensures Sorted([path])
  {
  }

  lemma {:induction false} KidsWalk(s: Scene, kids: seq<ChildRef>, parent: TaskId, p: Progress, start: seq<TaskId>)
      returns (paths: seq<seq<TaskId>>)
    requires ExpandKids(s, kids, parent, p).Ok? && ParentOf(start) == Some(parent)
    ensures var q := ExpandKids(s, kids, parent, p).value;
            && Walked(Pushed(p, q), paths, start) && Sorted(paths) && Branches(paths, start, p.nextId, q.nextId)
            && p.nextId <= q.nextId
    decreases Room(p), |kids| + 1
  {
    hide Walked, Branches, Sorted, AllBefore;
    var q := ExpandKids(s, kids, parent, p).value;
    if kids == [] {
      paths := [];
      NothingBranches(start, p.nextId);
      assert Pushed(p, q) == [];
    } else {
      hide Expand;
      var child := Root(p.nextId, kids[0].offset, kids[0].typeName, None);
      var p1 := p.(nextId := p.nextId + 1);
      var mid := Expand(s, child, Some(parent), p1).value;
      var first := ExpandWalks(s, child, Some(parent), p1, start);
      var rest := KidsWalk(s, kids[1..], parent, mid, start);
      ExpandNumbers(s, child, Some(parent), p1);
      PushedConcat(p, mid, q);
      assert Pushed(p, mid) == Pushed(p1, mid);
      WalkedConcat(Pushed(p, mid), first, Pushed(mid, q), rest, start);
      Widen(first, start, p.nextId, p.nextId + 1, mid.nextId);
      BranchesOrdered(first, rest, start, p.nextId, mid.nextId, q.nextId);
      SortedConcat(first, rest);
      paths := first + rest;
    }
  }

  lemma Widen(paths: seq<seq<TaskId>>, start: seq<TaskId>, lo: TaskId, hi: TaskId, hi': TaskId)
    requires Branches(paths, start, lo, hi) && hi <= hi'
    ensures Branches(paths, start, lo, hi')
  {
  }
}
