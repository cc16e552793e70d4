/** The whole task tree of a set of roots: when it exists and how it is ordered. */
module DecodeTasks {
  import opened Common
  import opened TaskTree
  import opened Forest
  import opened AwaitStack
  import opened FanOutWalk

  // ---- The walk over all roots -----------------------------------------------------------

  ghost predicate DistinctRoots(roots: seq<Root>) {
    forall k, l :: 0 <= k < l < |roots| ==> roots[k].id != roots[l].id
  }

  ghost predicate AscendingRoots(roots: seq<Root>) {
    forall k, l :: 0 <= k < l < |roots| ==> roots[k].id < roots[l].id
  }

  ghost predicate RootsWithin(roots: seq<Root>, lo: TaskId, hi: TaskId) {
    forall k :: 0 <= k < |roots| ==> lo <= roots[k].id < hi
  }

  /** The roots are the parentless nodes, pushed in their given order at the indices `at`. */
  ghost predicate RootsAt(roots: seq<Root>, nodes: seq<Node>, paths: seq<seq<TaskId>>, at: seq<nat>) {
    && |at| == |roots| && |paths| == |nodes| && Ascending(at)
    && (forall k :: 0 <= k < |at| ==>
          at[k] < |nodes| && nodes[at[k]].id == roots[k].id && paths[at[k]] == [roots[k].id])
    && (forall i: nat :: i < |nodes| ==> (nodes[i].parent.None? <==> i in at))
  }

  /** Child nodes are numbered upwards within `lo .. hi`, in the order they are pushed. */
  ghost predicate ChildrenNumbered(nodes: seq<Node>, lo: TaskId, hi: TaskId) {
    && (forall i :: 0 <= i < |nodes| && nodes[i].parent.Some? ==> lo <= nodes[i].id < hi)
    && (forall i, j :: 0 <= i < j < |nodes| && nodes[i].parent.Some? && nodes[j].parent.Some? ==>
          nodes[i].id < nodes[j].id)
  }

  lemma NumberedConcat(a: seq<Node>, b: seq<Node>, lo: TaskId, mid: TaskId, hi: TaskId)
    requires ChildrenNumbered(a, lo, mid) && ChildrenNumbered(b, mid, hi) && lo <= mid <= hi
    ensures ChildrenNumbered(a + b, lo, hi)
  {
  }

  lemma {:induction false} RootsNumber(s: Scene, roots: seq<Root>, p: Progress)
    requires ExpandRoots(s, roots, p).Ok?
    ensures var q := ExpandRoots(s, roots, p).value;
            ChildrenNumbered(Pushed(p, q), p.nextId, q.nextId) && p.nextId <= q.nextId
    decreases |roots|
  {
    var q := ExpandRoots(s, roots, p).value;
    if roots == [] {
      assert Pushed(p, q) == [];
    } else {
      hide Expand;
      var mid := Expand(s, roots[0], None, p).value;
      ExpandNumbers(s, roots[0], None, p);
      FirstNumbered(Pushed(p, mid), p.nextId);
      RootsNumber(s, roots[1..], mid);
      PushedConcat(p, mid, q);
      NumberedConcat(Pushed(p, mid), Pushed(mid, q), p.nextId, mid.nextId, q.nextId);
    }
  }

  lemma FirstNumbered(nodes: seq<Node>, lo: TaskId)
    requires nodes != [] && nodes[0].parent.None? && Consecutive(nodes[1..], lo)
    ensures ChildrenNumbered(nodes, lo, lo + |nodes| - 1)
    ensures forall i :: 1 <= i < |nodes| ==> nodes[i].parent.Some?
  {
    forall i | 1 <= i < |nodes| ensures nodes[i].id == lo + i - 1 && nodes[i].parent.Some? {
      assert nodes[1..][i - 1] == nodes[i];
    }
  }

  function Shift(at: seq<nat>, n: nat): (r: seq<nat>)
    ensures |r| == |at| && forall k :: 0 <= k < |at| ==> r[k] == at[k] + n
  {
    seq(|at|, k requires 0 <= k < |at| => at[k] + n)
  }

  lemma ShiftMembers(at: seq<nat>, n: nat)
    ensures forall i: nat :: i in [0] + Shift(at, n) <==> i == 0 || (i >= n && i - n in at)
  {
    forall i: nat | i >= n && i - n in at ensures i in Shift(at, n) {
      var k :| 0 <= k < |at| && at[k] == i - n;
      assert Shift(at, n)[k] == i;
    }
  }

  lemma RootsAtCons(r: Root, roots: seq<Root>, a: seq<Node>, aPaths: seq<seq<TaskId>>, b: seq<Node>,
                    bPaths: seq<seq<TaskId>>, at: seq<nat>)
    requires a != [] && |a| == |aPaths| && a[0].id == r.id && a[0].parent.None? && aPaths[0] == [r.id]
    requires forall i :: 1 <= i < |a| ==> a[i].parent.Some?
    requires RootsAt(roots, b, bPaths, at)
    ensures RootsAt([r] + roots, a + b, aPaths + bPaths, [0] + Shift(at, |a|))
  {
    ShiftMembers(at, |a|);
    var at' := [0] + Shift(at, |a|);
    forall k | 0 <= k < |at'|
      ensures at'[k] < |a + b| && (a + b)[at'[k]].id == ([r] + roots)[k].id
      ensures (aPaths + bPaths)[at'[k]] == [([r] + roots)[k].id]
    {
      if k > 0 {
        assert at'[k] == at[k - 1] + |a|;
      }
    }
  }

  /** The paths of all nodes, with the roots among them. */
  lemma {:induction false} RootsWalk(s: Scene, roots: seq<Root>, p: Progress, lo: TaskId, hi: TaskId)
      returns (paths: seq<seq<TaskId>>, at: seq<nat>)
    requires ExpandRoots(s, roots, p).Ok? && RootsWithin(roots, lo, hi) && lo <= hi
    ensures var added := Pushed(p, ExpandRoots(s, roots, p).value);
            Walked(added, paths, []) && RootsAt(roots, added, paths, at)
    ensures Branches(paths, [], lo, hi)
    ensures AscendingRoots(roots) ==> Sorted(paths)
    decreases |roots|
  {
    hide Walked, RootsAt, Branches, Sorted, AllBefore, Expand, RootsWithin, AscendingRoots;
    var q := ExpandRoots(s, roots, p).value;
    if roots == [] {
      paths, at := [], [];
      NothingBranches([], lo);
      Widen([], [], lo, lo, hi);
      assert Pushed(p, q) == [];
      NoRoots();
    } else {
      var up := if AscendingRoots(roots) then roots[0].id + 1 else lo;
      TailRoots(roots, lo, up, hi);
      var mid := Expand(s, roots[0], None, p).value;
      var first := ExpandWalks(s, roots[0], None, p, []);
      var rest, at0 := RootsWalk(s, roots[1..], mid, up, hi);
      JoinWalks(s, roots, p, first, rest, at0);
      assert [] + [roots[0].id] == [roots[0].id];
      JoinRoots(first, rest, roots[0].id, lo, up, hi, AscendingRoots(roots));
      paths, at := first + rest, [0] + Shift(at0, |Pushed(p, mid)|);
    }
  }

  lemma TailRoots(roots: seq<Root>, lo: TaskId, up: TaskId, hi: TaskId)
    requires roots != [] && RootsWithin(roots, lo, hi)
    requires up == if AscendingRoots(roots) then roots[0].id + 1 else lo
    ensures RootsWithin(roots[1..], up, hi) && lo <= roots[0].id < hi && up <= hi
    ensures AscendingRoots(roots) ==> AscendingRoots(roots[1..])
  {
  }

  /** The first root's walk, then the walk of the others. */
  lemma JoinWalks(s: Scene, roots: seq<Root>, p: Progress, first: seq<seq<TaskId>>, rest: seq<seq<TaskId>>,
                  at: seq<nat>)
    requires roots != [] && ExpandRoots(s, roots, p).Ok?
    requires var mid := Expand(s, roots[0], None, p).value;
             var q := ExpandRoots(s, roots, p).value;
             && Walked(Pushed(p, mid), first, []) && |first| > 0 && first[0] == [] + [roots[0].id]
             && Walked(Pushed(mid, q), rest, []) && RootsAt(roots[1..], Pushed(mid, q), rest, at)
    ensures var mid := Expand(s, roots[0], None, p).value;
            var added := Pushed(p, ExpandRoots(s, roots, p).value);
            && Walked(added, first + rest, [])
            && RootsAt(roots, added, first + rest, [0] + Shift(at, |Pushed(p, mid)|))
  {
    hide Walked, RootsAt, Expand;
    var mid := Expand(s, roots[0], None, p).value;
    var q := ExpandRoots(s, roots, p).value;
    var a, b := Pushed(p, mid), Pushed(mid, q);
    ExpandNumbers(s, roots[0], None, p);
    FirstNumbered(a, p.nextId);
    PushedConcat(p, mid, q);
    WalkedConcat(a, first, b, rest, []);
    SameLength(a, first, []);
    RootsAtCons(roots[0], roots[1..], a, first, b, rest, at);
    assert [roots[0]] + roots[1..] == roots;
  }

  lemma JoinRoots(first: seq<seq<TaskId>>, rest: seq<seq<TaskId>>, id: TaskId, lo: TaskId, up: TaskId, hi: TaskId,
                  asc: bool)
    requires Branches(first, [], id, id + 1) && Branches(rest, [], up, hi) && lo <= id < hi
    requires up == if asc then id + 1 else lo
    requires Sorted(first) && (asc ==> Sorted(rest))
    ensures Branches(first + rest, [], lo, hi) && (asc ==> Sorted(first + rest))
  {
    hide Branches, Sorted, AllBefore;
    Lower(first, [], id, id + 1, lo);
    if asc {
      BranchesOrdered(first, rest, [], lo, up, hi);
      SortedConcat(first, rest);
    } else {
      Widen(first, [], lo, id + 1, hi);
      BranchesJoin(first, rest, [], lo, hi);
    }
  }

  lemma NoRoots()
    ensures RootsAt([], [], [], [])
  {
  }

  lemma SameLength(nodes: seq<Node>, paths: seq<seq<TaskId>>, start: seq<TaskId>)
    requires Walked(nodes, paths, start)
    ensures |nodes| == |paths|
  {
  }

  lemma Lower(paths: seq<seq<TaskId>>, start: seq<TaskId>, lo: TaskId, hi: TaskId, lo': TaskId)
    requires Branches(paths, start, lo, hi) && lo' <= lo
    ensures Branches(paths, start, lo', hi)
  {
  }

  lemma BranchesJoin(a: seq<seq<TaskId>>, b: seq<seq<TaskId>>, start: seq<TaskId>, lo: TaskId, hi: TaskId)
    requires Branches(a, start, lo, hi) && Branches(b, start, lo, hi)
    ensures Branches(a + b, start, lo, hi)
  {
  }

  // ---- Which walks make a tree -----------------------------------------------------------

  lemma PathsOf(s: Scene, roots: seq<Root>) returns (paths: seq<seq<TaskId>>, at: seq<nat>)
    requires Enumerate(s, roots).Ok?
    ensures var nodes := Enumerate(s, roots).value;
            && Walked(nodes, paths, []) && RootsAt(roots, nodes, paths, at)
            && (exists hi :: ChildrenNumbered(nodes, FirstFresh(roots), hi))
    ensures AscendingRoots(roots) ==> Sorted(paths)
  {
    hide ChildrenNumbered, Walked, RootsAt, Sorted;
    var p := Progress(FirstFresh(roots), []);
    var q := ExpandRoots(s, roots, p).value;
    assert Pushed(p, q) == q.out;
    RootsNumber(s, roots, p);
    paths, at := RootsWalk(s, roots, p, 0, FirstFresh(roots));
  }

  /** Different roots are pushed at different indices. */
  lemma DistinctIffRootsAre(roots: seq<Root>, nodes: seq<Node>, paths: seq<seq<TaskId>>, at: seq<nat>, hi: TaskId)
    requires RootsAt(roots, nodes, paths, at) && ChildrenNumbered(nodes, FirstFresh(roots), hi)
    ensures DistinctIds(nodes) <==> DistinctRoots(roots)
  {
    if DistinctRoots(roots) {
      forall i: nat, j: nat | i < j < |nodes| ensures nodes[i].id != nodes[j].id {
        if nodes[i].parent.None? {
          assert i in at;
        }
        if nodes[j].parent.None? {
          assert j in at;
        }
      }
    } else {
      var k, l :| 0 <= k < l < |roots| && roots[k].id == roots[l].id;
      assert at[k] < at[l] && nodes[at[k]].id == nodes[at[l]].id;
    }
  }

  lemma HangsPresent(nodes: seq<Node>, paths: seq<seq<TaskId>>, i: nat) returns (j: nat)
    requires Walked(nodes, paths, []) && i < |nodes| && nodes[i].parent.Some?
    ensures j < i && paths[i] != [] && paths[j] == paths[i][..|paths[i]| - 1] && nodes[i].parent == Some(nodes[j].id)
  {
    assert Hangs(nodes, paths, [], i);
    var up := paths[i][..|paths[i]| - 1];
    assert up in paths[..i];
    j :| 0 <= j < i && paths[..i][j] == up;
    assert Hangs(nodes, paths, [], j);
  }

  /** Every walk names only parents pushed earlier, each child's id exceeds its
      parent's, and all ids are distinct exactly when the root ids are. */
  lemma WalkMakesATree(s: Scene, roots: seq<Root>)
    requires Enumerate(s, roots).Ok?
    ensures var nodes := Enumerate(s, roots).value;
            && (DistinctIds(nodes) <==> DistinctRoots(roots)) && ParentsPresent(nodes)
            && (forall i :: 0 <= i < |nodes| && nodes[i].parent.Some? ==> nodes[i].parent.value < nodes[i].id)
            && |nodes| <= MAX_TASKS
  {
    var nodes := Enumerate(s, roots).value;
    var paths, at := PathsOf(s, roots);
    var hi :| ChildrenNumbered(nodes, FirstFresh(roots), hi);
    DistinctIffRootsAre(roots, nodes, paths, at, hi);
    forall i: nat | i < |nodes| && nodes[i].parent.Some?
      ensures IsId(nodes, nodes[i].parent.value) && nodes[i].parent.value < nodes[i].id
    {
      var j := HangsPresent(nodes, paths, i);
      if nodes[j].parent.None? {
        assert j in at;
      }
    }
  }

  // ---- The order of the tree -----------------------------------------------------------------

  lemma {:induction false} WalkedIsRootPath(t: Tree<Task>, nodes: seq<Node>, paths: seq<seq<TaskId>>, i: nat)
    requires Walked(nodes, paths, []) && Holds(t.nodes, nodes) && i < |nodes|
    ensures RootPath(t, paths[i]) && Last(paths[i]) == nodes[i].id
    decreases i
  {
    assert Hangs(nodes, paths, [], i);
    var path := paths[i];
    var up := path[..|path| - 1];
    assert path == up + [nodes[i].id];
    if nodes[i].parent.Some? {
      var j := HangsPresent(nodes, paths, i);
      WalkedIsRootPath(t, nodes, paths, j);
      PathGrows(t, up, nodes[i].id);
    } else {
      assert up == [];
    }
  }

  function Ids(nodes: seq<Node>): seq<TaskId> {
    seq(|nodes|, i requires 0 <= i < |nodes| => nodes[i].id)
  }

  /** The walk's paths are the tree's root paths. */
  lemma WalkCoversTree(t: Tree<Task>, nodes: seq<Node>, paths: seq<seq<TaskId>>)
    requires Walked(nodes, paths, []) && Holds(t.nodes, nodes)
    ensures forall q :: q in paths <==> RootPath(t, q)
  {
    forall q | q in paths ensures RootPath(t, q) {
      var i :| 0 <= i < |paths| && paths[i] == q;
      WalkedIsRootPath(t, nodes, paths, i);
    }
    forall q | RootPath(t, q) ensures q in paths {
      assert Last(q) in t.nodes && IsId(nodes, Last(q));
      var i :| 0 <= i < |nodes| && nodes[i].id == Last(q);
      WalkedIsRootPath(t, nodes, paths, i);
      RootPathUnique(t, q, paths[i]);
    }
  }

  /** Every node of the walk is listed, and the pre-order list of the tree is the
      walk order if and only if the root ids ascend. */
  lemma WalkOrderIsPreorder(s: Scene, roots: seq<Root>, t: Tree<Task>)
    requires Enumerate(s, roots).Ok? && ValidTree(t) && Holds(t.nodes, Enumerate(s, roots).value)
    ensures Acyclic(t) && forall id :: id in t.nodes ==> id in Flatten(t)
    ensures Flatten(t) == Ids(Enumerate(s, roots).value) <==> AscendingRoots(roots)
  {
    hide ValidTree, Flatten, FlattenPaths, Holds, Walked, RootsAt, Enumerate, RootPath, Sorted;
    var nodes := Enumerate(s, roots).value;
    var paths, at := PathsOf(s, roots);
    WalkCoversTree(t, nodes, paths);
    EveryNodeListed(t, nodes, paths);
    if AscendingRoots(roots) {
      SortedWalk(t, nodes, paths);
    }
    if Flatten(t) == Ids(nodes) {
      ListedRootsAscend(t, roots, nodes, paths, at);
    }
  }

  lemma EveryNodeListed(t: Tree<Task>, nodes: seq<Node>, paths: seq<seq<TaskId>>)
    requires ValidTree(t) && Walked(nodes, paths, []) && Holds(t.nodes, nodes)
    ensures Acyclic(t) && forall id :: id in t.nodes ==> id in Flatten(t)
  {
    ForestProjection(t);
    AllListedIffAcyclic(t);
    hide ValidTree, Flatten, FlattenPaths, Walked;
    forall id | id in t.nodes ensures id in Flatten(t) {
      assert IsId(nodes, id);
      var i :| 0 <= i < |nodes| && nodes[i].id == id;
      WalkedIsRootPath(t, nodes, paths, i);
      assert Reachable(t, id);
    }
  }

  lemma LastIds(t: Tree<Task>, nodes: seq<Node>, paths: seq<seq<TaskId>>)
    requires Walked(nodes, paths, [])
    ensures (forall i :: 0 <= i < |paths| ==> paths[i] != []) && Lasts(paths) == Ids(nodes)
  {
    forall i | 0 <= i < |paths| ensures paths[i] != [] && Last(paths[i]) == nodes[i].id {
      assert Hangs(nodes, paths, [], i);
    }
  }

  lemma SortedWalk(t: Tree<Task>, nodes: seq<Node>, paths: seq<seq<TaskId>>)
    requires ValidTree(t) && Walked(nodes, paths, []) && Sorted(paths)
    requires forall q :: q in paths <==> RootPath(t, q)
    ensures Flatten(t) == Ids(nodes)
  {
    FlattenPathsOk(t);
    hide ValidTree, FlattenPaths, Walked;
    SortedUnique(paths, FlattenPaths(t));
    LastIds(t, nodes, paths);
  }

  lemma ListedRootsAscend(t: Tree<Task>, roots: seq<Root>, nodes: seq<Node>, paths: seq<seq<TaskId>>, at: seq<nat>)
    requires ValidTree(t) && Walked(nodes, paths, []) && RootsAt(roots, nodes, paths, at)
    requires Holds(t.nodes, nodes) && Flatten(t) == Ids(nodes)
    ensures AscendingRoots(roots)
  {
    ForestProjection(t);
    hide ValidTree, FlattenPaths, Flatten, Walked, Holds;
    var listed := FlattenPaths(t);
    forall k, l | 0 <= k < l < |roots| ensures roots[k].id < roots[l].id {
      var x, y := at[k], at[l];
      assert x < y < |Flatten(t)|;
      WalkedIsRootPath(t, nodes, paths, x);
      WalkedIsRootPath(t, nodes, paths, y);
      RootPathUnique(t, listed[x], paths[x]);
      RootPathUnique(t, listed[y], paths[y]);
      assert Before([roots[k].id], [roots[l].id]);
    }
  }

  // ---- The decoder ---------------------------------------------------------------------------

  /** `decode_tasks`: the tree exists exactly when the walk succeeds on distinct
      root ids, and it lists the walk's nodes in walk order when those ascend. */
  method Decode(s: Scene, roots: seq<Root>) returns (r: Result<Tree<Task>, DecodeError>)
    ensures r.Ok? <==> Enumerate(s, roots).Ok? && DistinctRoots(roots)
    ensures Enumerate(s, roots).Err? ==> r == Err(Enumerate(s, roots).error)
    ensures Enumerate(s, roots).Ok? && r.Err? ==> r.error == InvalidTree
    ensures r.Ok? ==> && ValidTree(r.value) && Holds(r.value.nodes, Enumerate(s, roots).value) && Acyclic(r.value)
                      && (Flatten(r.value) == Ids(Enumerate(s, roots).value) <==> AscendingRoots(roots))
  {
    hide Enumerate, Flatten, ValidTree, Holds;
    var nodes := EnumerateInto(s, roots);
    if nodes.Err? {
      return Err(nodes.error);
    }
    WalkMakesATree(s, roots);
    var tree := TryFromNodes(nodes.value);
    if tree.Err? {
      return Err(InvalidTree);
    }
    WalkOrderIsPreorder(s, roots, tree.value);
    return Ok(tree.value);
  }

  /** A coroutine whose first fan-out branch is itself is refused, never walked forever. */
  lemma {:induction false} SelfNestingIsRefused(s: Scene, r: Root, parent: Option<TaskId>, p: Progress)
    requires NodeOf(s, r, parent).Ok? && r.header.None? && r.typeName in s.layouts
    requires var kids := FanOut(s, r.base, s.layouts[r.typeName]);
             kids.Ok? && kids.value != [] && kids.value[0] == ChildRef(r.base, r.typeName)
    ensures Expand(s, r, parent, p) == Err(TooManyTasks)
    decreases Room(p)
  {
    hide FanOut;
    if |p.out| < MAX_TASKS {
      var node := NodeOf(s, r, parent).value;
      var pushed := p.(out := p.out + [node]);
      SelfNestingIsRefused(s, r.(id := pushed.nextId), Some(r.id), pushed.(nextId := pushed.nextId + 1));
    }
  }

  // ---- Fan-out cycles --------------------------------------------------------------------------

  /** `b` is reached from `a` through `depth` fan-outs, by any branches. */
  ghost predicate Descends(s: Scene, a: ChildRef, b: ChildRef, depth: nat)
    decreases depth
  {
    if depth == 0 then a == b
    else
      a.typeName in s.layouts
      && var kids := FanOut(s, a.offset, s.layouts[a.typeName]);
         kids.Ok? && exists i :: 0 <= i < |kids.value| && Descends(s, kids.value[i], b, depth - 1)
  }

  /** In an expansion that succeeds, every branch was expanded, with no fewer nodes pushed before it. */
  lemma {:induction false} BranchExpanded(s: Scene, kids: seq<ChildRef>, i: nat, parent: TaskId, p: Progress)
      returns (id: TaskId, q: Progress)
    requires i < |kids| && ExpandKids(s, kids, parent, p).Ok?
    ensures |q.out| >= |p.out| && Expand(s, Root(id, kids[i].offset, kids[i].typeName, None), Some(parent), q).Ok?
    decreases |kids|
  {
    hide Expand;
    var child := Root(p.nextId, kids[0].offset, kids[0].typeName, None);
    var p1 := p.(nextId := p.nextId + 1);
    if i == 0 {
      id, q := p.nextId, p1;
    } else {
      id, q := BranchExpanded(s, kids[1..], i - 1, parent, Expand(s, child, Some(parent), p1).value);
    }
  }

  lemma {:induction false} DescendantExpanded(s: Scene, r: Root, parent: Option<TaskId>, p: Progress, b: ChildRef,
                                              depth: nat)
      returns (id: TaskId, above: TaskId, q: Progress)
    requires depth > 0 && Descends(s, ChildRef(r.base, r.typeName), b, depth) && Expand(s, r, parent, p).Ok?
    ensures |q.out| > |p.out| && Expand(s, Root(id, b.offset, b.typeName, None), Some(above), q).Ok?
    decreases depth
  {
    hide NodeOf, FanOut;
    NodeIds(s, r, parent);
    var kids := FanOut(s, r.base, s.layouts[r.typeName]).value;
    var i :| 0 <= i < |kids| && Descends(s, kids[i], b, depth - 1);
    var pushed := p.(out := p.out + [NodeOf(s, r, parent).value]);
    id, q := BranchExpanded(s, kids, i, r.id, pushed);
    above := r.id;
    if depth > 1 {
      hide Expand;
      var kid := Root(id, kids[i].offset, kids[i].typeName, None);
      id, above, q := DescendantExpanded(s, kid, Some(r.id), q, b, depth - 1);
    }
  }

  /** A coroutine that is its own descendant, at any depth and by any branches, is refused. */
  lemma {:induction false} FanOutCycleIsRefused(s: Scene, r: Root, parent: Option<TaskId>, p: Progress, depth: nat)
    requires depth > 0 && Descends(s, ChildRef(r.base, r.typeName), ChildRef(r.base, r.typeName), depth)
    ensures Expand(s, r, parent, p).Err?
    decreases Room(p)
  {
    hide NodeOf, FanOut, Descends, ExpandKids;
    if Expand(s, r, parent, p).Ok? {
      var id, above, q := DescendantExpanded(s, r, parent, p, ChildRef(r.base, r.typeName), depth);
      FanOutCycleIsRefused(s, Root(id, r.base, r.typeName, None), Some(above), q, depth);
    }
  }
}
