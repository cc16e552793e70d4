/** The pre-order projection of a task tree, characterised by the order of root paths. */
module Forest {
  import opened Common
  import opened TaskTree

  // ---- Root paths ----------------------------------------------------------------

  /** Each id is the parent of the one after it. */
  ghost predicate Linked<D>(t: Tree<D>, path: seq<TaskId>) {
    && (forall i :: 0 <= i < |path| ==> path[i] in t.nodes)
    && (forall i :: 1 <= i < |path| ==> t.nodes[path[i]].parent == Some(path[i - 1]))
  }

  /** The way from a root down to a node. */
  ghost predicate RootPath<D>(t: Tree<D>, path: seq<TaskId>) {
    path != [] && Linked(t, path) && t.nodes[path[0]].parent.None?
  }

  function Last(path: seq<TaskId>): TaskId
    requires path != []
  {
    path[|path| - 1]
  }

  lemma Trimmed<D>(t: Tree<D>, path: seq<TaskId>, k: nat)
    requires RootPath(t, path) && 0 < k <= |path|
    ensures RootPath(t, path[..k]) && Last(path[..k]) == path[k - 1]
  {
  }

  lemma RootAlone<D>(t: Tree<D>, p: seq<TaskId>)
    requires RootPath(t, p)
    ensures |p| == 1 <==> t.nodes[Last(p)].parent.None?
    ensures |p| > 1 ==> t.nodes[Last(p)].parent == Some(p[|p| - 2])
  {
  }

  /** A node has at most one root path. */
  lemma {:induction false} RootPathUnique<D>(t: Tree<D>, p: seq<TaskId>, q: seq<TaskId>)
    requires RootPath(t, p) && RootPath(t, q) && Last(p) == Last(q)
    ensures p == q
    decreases |p|
  {
    if |p| > 1 && |q| > 1 {
      Trimmed(t, p, |p| - 1);
      Trimmed(t, q, |q| - 1);
      RootPathUnique(t, p[..|p| - 1], q[..|q| - 1]);
      assert p == p[..|p| - 1] + [Last(p)] && q == q[..|q| - 1] + [Last(q)];
    } else {
      RootAlone(t, p);
      RootAlone(t, q);
      assert p == [Last(p)] && q == [Last(q)];
    }
  }

  lemma RootPathDistinct<D>(t: Tree<D>, path: seq<TaskId>)
    requires RootPath(t, path)
    ensures NoDuplicates(path)
  {
    forall i, j | 0 <= i < j < |path| ensures path[i] != path[j] {
      if path[i] == path[j] {
        Trimmed(t, path, i + 1);
        Trimmed(t, path, j + 1);
        RootPathUnique(t, path[..i + 1], path[..j + 1]);
      }
    }
  }

  lemma {:induction false} DistinctFits(s: seq<TaskId>, ids: set<TaskId>)
    requires NoDuplicates(s) && forall i :: 0 <= i < |s| ==> s[i] in ids
    ensures |s| <= |ids|
    decreases |s|
  {
    if s != [] {
      var init := s[..|s| - 1];
      forall i | 0 <= i < |init| ensures init[i] in ids - {Last(s)} {
        assert init[i] == s[i];
      }
      DistinctFits(init, ids - {Last(s)});
    }
  }

  /** No root path is longer than the tree is large, even if some parent links form cycles. */
  lemma RootPathFits<D>(t: Tree<D>, path: seq<TaskId>)
    requires RootPath(t, path)
    ensures |path| <= |t.nodes|
  {
    RootPathDistinct(t, path);
    DistinctFits(path, t.nodes.Keys);
  }

  lemma ChildPath<D>(t: Tree<D>, path: seq<TaskId>, c: TaskId)
    requires ValidTree(t) && RootPath(t, path) && c in t.Children(Last(path))
    ensures RootPath(t, path + [c]) && |path| < |t.nodes|
  {
    hide ValidTree, Linked;
    ChildLinked(t, Last(path), c);
    PathGrows(t, path, c);
    RootPathFits(t, path + [c]);
  }

  lemma ChildLinked<D>(t: Tree<D>, p: TaskId, c: TaskId)
    requires ValidTree(t) && c in t.Children(p)
    ensures c in t.nodes && t.nodes[c].parent == Some(p)
  {
    hide LinksInside, Ascending;
    assert Listed(t.Children(p), t.nodes, t.nodes.Keys, Some(p));
  }

  lemma PathGrows<D>(t: Tree<D>, path: seq<TaskId>, c: TaskId)
    requires RootPath(t, path) && c in t.nodes && t.nodes[c].parent == Some(Last(path))
    ensures RootPath(t, path + [c])
  {
  }

  // ---- The projection ----------------------------------------------------------------

  /** The root paths of a node's subtree, in visiting order; it ends because paths cannot outgrow the tree. */
  ghost function Subtree<D>(t: Tree<D>, path: seq<TaskId>): seq<seq<TaskId>>
    requires ValidTree(t) && RootPath(t, path)
    decreases |t.nodes| - |path|, |t.Children(Last(path))| + 1
  {
    RootPathFits(t, path);
    [path] + Subtrees(t, path, t.Children(Last(path)))
  }

  ghost function Subtrees<D>(t: Tree<D>, path: seq<TaskId>, kids: seq<TaskId>): seq<seq<TaskId>>
    requires ValidTree(t) && RootPath(t, path) && forall k :: k in kids ==> k in t.Children(Last(path))
    decreases |t.nodes| - |path|, |kids|
  {
    if kids == [] then []
    else
      ChildPath(t, path, kids[0]);
      Subtree(t, path + [kids[0]]) + Subtrees(t, path, kids[1..])
  }

  ghost function FromRoots<D>(t: Tree<D>, roots: seq<TaskId>): seq<seq<TaskId>>
    requires ValidTree(t) && forall r :: r in roots ==> r in t.roots
    decreases |roots|
  {
    if roots == [] then []
    else
      assert RootPath(t, [roots[0]]);
      Subtree(t, [roots[0]]) + FromRoots(t, roots[1..])
  }

  function Lasts(paths: seq<seq<TaskId>>): (ids: seq<TaskId>)
    requires forall i :: 0 <= i < |paths| ==> paths[i] != []
    ensures |ids| == |paths| && forall i :: 0 <= i < |paths| ==> ids[i] == Last(paths[i])
  {
    seq(|paths|, i requires 0 <= i < |paths| => Last(paths[i]))
  }

  // ---- Lexicographic order ----------------------------------------------------------

  ghost predicate Before(p: seq<TaskId>, q: seq<TaskId>)
    decreases |q|
  {
    q != [] && (p == [] || p[0] < q[0] || (p[0] == q[0] && Before(p[1..], q[1..])))
  }

  lemma {:induction false} BeforeTransitive(p: seq<TaskId>, q: seq<TaskId>, r: seq<TaskId>)
    requires Before(p, q) && Before(q, r)
    ensures Before(p, r)
    decreases |r|
  {
    if p != [] && q[0] == p[0] && r[0] == q[0] {
      BeforeTransitive(p[1..], q[1..], r[1..]);
    }
  }

  lemma {:induction false} BeforeIrreflexive(p: seq<TaskId>)
    ensures !Before(p, p)
    decreases |p|
  {
    if p != [] {
      BeforeIrreflexive(p[1..]);
    }
  }

  /** A path comes before its extensions, and sibling branches before each other by id. */
  lemma {:induction false} BeforeBranches(p: seq<TaskId>, x: TaskId, a: seq<TaskId>, y: TaskId, b: seq<TaskId>)
    ensures Before(p, p + ([y] + b))
    ensures x < y ==> Before(p + ([x] + a), p + ([y] + b))
    decreases |p|
  {
    if p != [] {
      BeforeBranches(p[1..], x, a, y, b);
      assert (p + ([y] + b))[1..] == p[1..] + ([y] + b);
      assert (p + ([x] + a))[1..] == p[1..] + ([x] + a);
    }
  }

  ghost predicate Sorted(paths: seq<seq<TaskId>>) {
    forall i, j :: 0 <= i < j < |paths| ==> Before(paths[i], paths[j])
  }

  ghost predicate AllBefore(a: seq<seq<TaskId>>, b: seq<seq<TaskId>>) {
    forall i, j :: 0 <= i < |a| && 0 <= j < |b| ==> Before(a[i], b[j])
  }

  lemma SortedConcat(a: seq<seq<TaskId>>, b: seq<seq<TaskId>>)
    requires Sorted(a) && Sorted(b) && AllBefore(a, b)
    ensures Sorted(a + b)
  {
  }

  // ---- Exactness -----------------------------------------------------------------------

  /** All of `paths` are root paths that extend `p` by a branch in `kids`. */
  ghost predicate Under<D>(t: Tree<D>, p: seq<TaskId>, kids: seq<TaskId>, path: seq<TaskId>) {
    RootPath(t, path) && |path| > |p| && path[..|p|] == p && path[|p|] in kids
  }

  lemma UnderSplit<D>(t: Tree<D>, p: seq<TaskId>, kids: seq<TaskId>, path: seq<TaskId>)
    requires Under(t, p, kids, path)
    ensures path == p + ([path[|p|]] + path[|p| + 1..])
  {
  }

  lemma UnderBefore<D>(t: Tree<D>, p: seq<TaskId>, k: TaskId, kids: seq<TaskId>, a: seq<TaskId>, b: seq<TaskId>)
    requires Under(t, p, [k], a) && Under(t, p, kids, b) && forall x :: x in kids ==> k < x
    ensures Before(a, b)
  {
    UnderSplit(t, p, [k], a);
    UnderSplit(t, p, kids, b);
    BeforeBranches(p, a[|p|], a[|p| + 1..], b[|p|], b[|p| + 1..]);
  }

  /** A subtree holds the path itself and every root path through it, in order. */
  lemma {:induction false} SubtreeExact<D>(t: Tree<D>, path: seq<TaskId>)
    requires ValidTree(t) && RootPath(t, path)
    ensures Sorted(Subtree(t, path))
    ensures forall q :: q in Subtree(t, path) <==> RootPath(t, q) && |path| <= |q| && q[..|path|] == path
    decreases |t.nodes| - |path|, |t.Children(Last(path))| + 1
  {
    RootPathFits(t, path);
    var kids := t.Children(Last(path));
    assert Listed(kids, t.nodes, t.nodes.Keys, Some(Last(path)));
    SubtreesExact(t, path, kids);
    var below := Subtrees(t, path, kids);
    forall j | 0 <= j < |below| ensures Before(path, below[j]) {
      assert below[j] in below;
      UnderSplit(t, path, kids, below[j]);
      BeforeBranches(path, 0, [], below[j][|path|], below[j][|path| + 1..]);
    }
    assert AllBefore([path], below);
    SortedConcat([path], below);
    forall q | RootPath(t, q) && |path| <= |q| && q[..|path|] == path ensures q in Subtree(t, path) {
      if |q| == |path| {
        assert q == path;
      } else {
        assert t.nodes[q[|path|]].parent == Some(q[|path| - 1]) && q[|path| - 1] == Last(path);
        assert Under(t, path, kids, q);
      }
    }
  }

  lemma {:induction false} SubtreesExact<D>(t: Tree<D>, path: seq<TaskId>, kids: seq<TaskId>)
    requires ValidTree(t) && RootPath(t, path) && Ascending(kids)
    requires forall k :: k in kids ==> k in t.Children(Last(path))
    ensures Sorted(Subtrees(t, path, kids))
    ensures forall q :: q in Subtrees(t, path, kids) <==> Under(t, path, kids, q)
    decreases |t.nodes| - |path|, |kids|
  {
    if kids != [] {
      var k := kids[0];
      ChildPath(t, path, k);
      SubtreeExact(t, path + [k]);
      SubtreesExact(t, path, kids[1..]);
      var first, rest := Subtree(t, path + [k]), Subtrees(t, path, kids[1..]);
      FirstBranch(t, path, kids);
      forall i, j | 0 <= i < |first| && 0 <= j < |rest| ensures Before(first[i], rest[j]) {
        assert first[i] in first && rest[j] in rest;
        assert Under(t, path, [k], first[i]);
        UnderBefore(t, path, k, kids[1..], first[i], rest[j]);
      }
      SortedConcat(first, rest);
    }
  }

  lemma FirstBranch<D>(t: Tree<D>, path: seq<TaskId>, kids: seq<TaskId>)
    requires kids != [] && Ascending(kids)
    ensures forall x :: x in kids[1..] ==> kids[0] < x
    ensures forall q :: Under(t, path, [kids[0]], q)
                   <==> RootPath(t, q) && |path + [kids[0]]| <= |q| && q[..|path| + 1] == path + [kids[0]]
    ensures forall q :: Under(t, path, kids, q) <==> Under(t, path, [kids[0]], q) || Under(t, path, kids[1..], q)
  {
    forall q | RootPath(t, q) && |q| > |path|
      ensures q[..|path|] == path && q[|path|] == kids[0] <==> q[..|path| + 1] == path + [kids[0]]
    {
      assert q[..|path| + 1] == q[..|path|] + [q[|path|]];
    }
  }

  lemma {:induction false} FromRootsExact<D>(t: Tree<D>, roots: seq<TaskId>)
    requires ValidTree(t) && Ascending(roots) && forall r :: r in roots ==> r in t.roots
    ensures Sorted(FromRoots(t, roots))
    ensures forall q :: q in FromRoots(t, roots) <==> RootPath(t, q) && q[0] in roots
    decreases |roots|
  {
    if roots != [] {
      var r := roots[0];
      assert r in t.roots && RootPath(t, [r]);
      SubtreeExact(t, [r]);
      FromRootsExact(t, roots[1..]);
      var first, rest := Subtree(t, [r]), FromRoots(t, roots[1..]);
      forall q | RootPath(t, q) ensures q[0] == r <==> q[..1] == [r] {
      }
      forall i, j | 0 <= i < |first| && 0 <= j < |rest| ensures Before(first[i], rest[j]) {
        assert first[i] in first && rest[j] in rest;
        assert first[i][0] == r && rest[j][0] in roots[1..];
        assert r < rest[j][0];
      }
      SortedConcat(first, rest);
    }
  }

  /** The pre-order list of ids. */
  ghost function Flatten<D>(t: Tree<D>): seq<TaskId>
    requires ValidTree(t)
  {
    FlattenPathsOk(t);
    Lasts(FlattenPaths(t))
  }

  ghost function FlattenPaths<D>(t: Tree<D>): seq<seq<TaskId>>
    requires ValidTree(t)
  {
    FromRoots(t, t.roots)
  }

  /** Flattening visits exactly the root paths of the tree, in lexicographic order. */
  lemma FlattenPathsOk<D>(t: Tree<D>)
    requires ValidTree(t)
    ensures Sorted(FlattenPaths(t))
    ensures forall q :: q in FlattenPaths(t) <==> RootPath(t, q)
    ensures forall i :: 0 <= i < |FlattenPaths(t)| ==> RootPath(t, FlattenPaths(t)[i])
  {
    FromRootsExact(t, t.roots);
    forall q | RootPath(t, q) ensures q[0] in t.roots {
      assert q[0] in t.nodes;
    }
    forall i | 0 <= i < |FlattenPaths(t)| ensures RootPath(t, FlattenPaths(t)[i]) {
      assert FlattenPaths(t)[i] in FlattenPaths(t);
    }
  }

  ghost predicate Reachable<D>(t: Tree<D>, id: TaskId) {
    exists p :: RootPath(t, p) && Last(p) == id
  }

  /** The projection of any accepted tree lists each node reachable from a root
      exactly once and nothing else, a parent before its children, and siblings,
      with all that hangs below them, in ascending id. */
  lemma ForestProjection<D>(t: Tree<D>)
    requires ValidTree(t)
    ensures NoDuplicates(Flatten(t))
    ensures forall id :: id in Flatten(t) <==> Reachable(t, id)
    ensures forall i :: 0 <= i < |Flatten(t)| ==>
              RootPath(t, FlattenPaths(t)[i]) && Last(FlattenPaths(t)[i]) == Flatten(t)[i]
    ensures forall i, j :: 0 <= i < j < |Flatten(t)| ==> Before(FlattenPaths(t)[i], FlattenPaths(t)[j])
    ensures forall i, j :: 0 <= i < |Flatten(t)| && 0 <= j < |Flatten(t)| ==>
              (t.nodes[Flatten(t)[j]].parent == Some(Flatten(t)[i]) ==> i < j)
  {
    var paths, ids := FlattenPaths(t), Flatten(t);
    FlattenPathsOk(t);
    forall i, j | 0 <= i < j < |ids| ensures ids[i] != ids[j] {
      if ids[i] == ids[j] {
        RootPathUnique(t, paths[i], paths[j]);
        BeforeIrreflexive(paths[i]);
      }
    }
    forall id | Reachable(t, id) ensures id in ids {
      var p :| RootPath(t, p) && Last(p) == id;
      assert p in paths;
      var i :| 0 <= i < |paths| && paths[i] == p;
      assert ids[i] == id;
    }
    forall i, j | 0 <= i < |ids| && 0 <= j < |ids| && t.nodes[ids[j]].parent == Some(ids[i]) ensures i < j {
      ParentBefore(t, paths[i], paths[j]);
    }
  }

  lemma ParentBefore<D>(t: Tree<D>, p: seq<TaskId>, q: seq<TaskId>)
    requires RootPath(t, p) && RootPath(t, q) && t.nodes[Last(q)].parent == Some(Last(p))
    ensures Before(p, q) && !Before(q, p) && p != q
  {
    RootAlone(t, q);
    Trimmed(t, q, |q| - 1);
    RootPathUnique(t, p, q[..|q| - 1]);
    assert q == p + ([Last(q)] + []);
    BeforeBranches(p, 0, [], Last(q), []);
    BeforeIrreflexive(p);
    if Before(q, p) {
      BeforeTransitive(p, q, p);
    }
  }

  // ---- Completeness and cycles -------------------------------------------------------

  /** No node is its own proper ancestor. */
  ghost predicate Acyclic<D>(t: Tree<D>) {
    forall chain :: Linked(t, chain) && |chain| > 1 ==> chain[0] != Last(chain)
  }

  /** Climbing from a node in an acyclic tree reaches a root. */
  lemma {:induction false} AcyclicReaches<D>(t: Tree<D>, down: seq<TaskId>)
    requires ValidTree(t) && Acyclic(t) && down != [] && Linked(t, down) && NoDuplicates(down)
    ensures Reachable(t, Last(down))
    decreases |t.nodes| - |down|
  {
    DistinctFits(down, t.nodes.Keys);
    if t.nodes[down[0]].parent.None? {
      assert RootPath(t, down);
    } else {
      var parent := t.nodes[down[0]].parent.value;
      ClimbOne(t, down, parent);
      DistinctFits([parent] + down, t.nodes.Keys);
      AcyclicReaches(t, [parent] + down);
    }
  }

  lemma ClimbOne<D>(t: Tree<D>, down: seq<TaskId>, parent: TaskId)
    requires ValidTree(t) && Acyclic(t) && down != [] && Linked(t, down) && NoDuplicates(down)
    requires t.nodes[down[0]].parent == Some(parent)
    ensures Linked(t, [parent] + down) && NoDuplicates([parent] + down) && Last([parent] + down) == Last(down)
  {
    hide Listed;
    var up := [parent] + down;
    assert parent in t.nodes;
    assert Linked(t, up);
    forall j | 0 <= j < |down| ensures down[j] != parent {
      var cycle := up[..j + 2];
      assert Linked(t, cycle) && Last(cycle) == down[j] && cycle[0] == parent;
    }
  }

  lemma ReachableOutsideCycles<D>(t: Tree<D>, chain: seq<TaskId>)
    requires Linked(t, chain) && |chain| > 1 && chain[0] == Last(chain)
    ensures !Reachable(t, chain[0])
  {
    forall p | RootPath(t, p) && Last(p) == chain[0] ensures false {
      var longer := p + chain[1..];
      forall i | 1 <= i < |longer| ensures t.nodes[longer[i]].parent == Some(longer[i - 1]) {
        if i >= |p| {
          assert longer[i] == chain[i - |p| + 1] && longer[i - 1] == chain[i - |p|];
        }
      }
      assert Last(longer) == Last(chain);
      assert RootPath(t, longer);
      RootPathUnique(t, p, longer);
    }
  }

  /** Every task is listed exactly when no parent links form a cycle. */
  lemma AllListedIffAcyclic<D>(t: Tree<D>)
    requires ValidTree(t)
    ensures (forall id :: id in t.nodes ==> id in Flatten(t)) <==> Acyclic(t)
  {
    ForestProjection(t);
    hide Flatten, FlattenPaths;
    if Acyclic(t) {
      forall id | id in t.nodes ensures id in Flatten(t) {
        AcyclicReaches(t, [id]);
        assert Reachable(t, Last([id]));
      }
    } else {
      var chain :| Linked(t, chain) && |chain| > 1 && chain[0] == Last(chain);
      ReachableOutsideCycles(t, chain);
      assert chain[0] in t.nodes;
    }
  }

  /** A strictly ordered list of root paths that misses none is the flattening. */
  lemma {:induction false} SortedUnique(a: seq<seq<TaskId>>, b: seq<seq<TaskId>>)
    requires Sorted(a) && Sorted(b) && forall q :: q in a <==> q in b
    ensures a == b
    decreases |a|
  {
    if a == [] {
      assert forall i :: 0 <= i < |b| ==> b[i] in b;
    } else {
      assert a[0] in a && a[0] in b;
      var i :| 0 <= i < |b| && b[i] == a[0];
      assert b[0] in b && b[0] in a;
      var j :| 0 <= j < |a| && a[j] == b[0];
      if i > 0 && j > 0 {
        BeforeTransitive(a[0], a[j], a[0]);
      }
      BeforeIrreflexive(a[0]);
      assert a[0] == b[0];
      forall q ensures q in a[1..] <==> q in b[1..] {
        TailMembers(a, q);
        TailMembers(b, q);
      }
      SortedUnique(a[1..], b[1..]);
    }
  }

  lemma TailMembers(a: seq<seq<TaskId>>, q: seq<TaskId>)
    requires a != [] && Sorted(a)
    ensures q in a[1..] <==> q in a && q != a[0]
  {
    if q in a[1..] {
      var i :| 0 <= i < |a[1..]| && a[1..][i] == q;
      assert Before(a[0], a[i + 1]);
      BeforeIrreflexive(q);
    }
  }

  // ---- As the tree computes it ----------------------------------------------------------

  /** `push_preorder`: append a node, then each child's subtree. */
  method PushPreorder<D>(t: Tree<D>, ghost path: seq<TaskId>, id: TaskId, out: seq<TaskId>) returns (r: seq<TaskId>)
    requires ValidTree(t) && RootPath(t, path) && Last(path) == id
    ensures forall i :: 0 <= i < |Subtree(t, path)| ==> Subtree(t, path)[i] != []
    ensures r == out + Lasts(Subtree(t, path))
    decreases |t.nodes| - |path|
  {
    hide ValidTree;
    r := out + [id];
    var kids := t.Children(id);
    RootPathFits(t, path);
    ghost var done: seq<seq<TaskId>> := [path];
    var i := 0;
    assert kids[0..] == kids;
    while i < |kids|
      invariant 0 <= i <= |kids|
      invariant Subtree(t, path) == done + Subtrees(t, path, kids[i..])
      invariant forall j :: 0 <= j < |done| ==> done[j] != []
      invariant r == out + Lasts(done)
    {
      ChildPath(t, path, kids[i]);
      assert kids[i..][1..] == kids[i + 1..];
      r := PushPreorder(t, path + [kids[i]], kids[i], r);
      ghost var sub := Subtree(t, path + [kids[i]]);
      LastsConcat(done, sub);
      Regroup(done, sub, Subtrees(t, path, kids[i + 1..]));
      Regroup(out, Lasts(done), Lasts(sub));
      done := done + sub;
      i := i + 1;
    }
    assert done + [] == done;
  }

  lemma LastsConcat(a: seq<seq<TaskId>>, b: seq<seq<TaskId>>)
    requires forall i :: 0 <= i < |a| ==> a[i] != []
    requires forall i :: 0 <= i < |b| ==> b[i] != []
    ensures forall i :: 0 <= i < |a + b| ==> (a + b)[i] != []
    ensures Lasts(a + b) == Lasts(a) + Lasts(b)
  {
  }

  lemma Regroup<T>(a: seq<T>, b: seq<T>, c: seq<T>)
    ensures a + (b + c) == (a + b) + c
  {
  }

  lemma RootIsPath<D>(t: Tree<D>, r: TaskId)
    requires ValidTree(t) && r in t.roots
    ensures RootPath(t, [r])
  {
  }

  method FlattenPreorder<D>(t: Tree<D>) returns (out: seq<TaskId>)
    requires ValidTree(t)
    ensures out == Flatten(t)
  {
    hide Subtree;
    FlattenPathsOk(t);
    out := [];
    ghost var done: seq<seq<TaskId>> := [];
    var i := 0;
    while i < |t.roots|
      invariant 0 <= i <= |t.roots|
      invariant FlattenPaths(t) == done + FromRoots(t, t.roots[i..])
      invariant forall j :: 0 <= j < |done| ==> done[j] != []
      invariant out == Lasts(done)
    {
      RootIsPath(t, t.roots[i]);
      assert t.roots[i..][1..] == t.roots[i + 1..];
      out := PushPreorder(t, [t.roots[i]], t.roots[i], out);
      ghost var sub := Subtree(t, [t.roots[i]]);
      LastsConcat(done, sub);
      Regroup(done, sub, FromRoots(t, t.roots[i + 1..]));
      done := done + sub;
      i := i + 1;
    }
    assert done + [] == done;
  }
}
