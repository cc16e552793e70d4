/** The logical task tree: built from a flat node list, projected to a pre-order list. */
module TaskTree {
  import opened Common

  type TaskId = nat

  datatype TaskNode<+D> = TaskNode(id: TaskId, parent: Option<TaskId>, data: D)

  datatype TreeError = DuplicateId | DanglingParent

  datatype Tree<+D> = Tree(nodes: map<TaskId, TaskNode<D>>, childMap: map<TaskId, seq<TaskId>>, roots: seq<TaskId>) {
    function Children(id: TaskId): seq<TaskId> {
      if id in childMap then childMap[id] else []
    }
  }

  ghost predicate Ascending(s: seq<nat>) {
    forall i, j :: 0 <= i < j < |s| ==> s[i] < s[j]
  }

  /** `ids` are, in ascending order, the filed nodes with this parent. */
  ghost predicate Listed<D>(ids: seq<TaskId>, m: map<TaskId, TaskNode<D>>, filed: set<TaskId>, parent: Option<TaskId>)
    requires filed <= m.Keys
  {
    Ascending(ids) && forall c: nat :: c in ids <==> c in filed && m[c].parent == parent
  }

  ghost predicate LinksInside<D>(m: map<TaskId, TaskNode<D>>, filed: set<TaskId>)
    requires filed <= m.Keys
  {
    forall id :: id in filed && m[id].parent.Some? ==> m[id].parent.value in m
  }

  /** The shape every accepted node list gives: links stay inside, roots and
      children are listed in ascending id. Cycles of parent links are not excluded. */
  ghost predicate ValidTree<D>(t: Tree<D>) {
    && (forall id :: id in t.nodes ==> t.nodes[id].id == id)
    && LinksInside(t.nodes, t.nodes.Keys)
    && Listed(t.roots, t.nodes, t.nodes.Keys, None)
    && (forall p: nat :: Listed(t.Children(p), t.nodes, t.nodes.Keys, Some(p)))
  }

  ghost predicate DistinctIds<D>(nodes: seq<TaskNode<D>>) {
    forall i, j :: 0 <= i < j < |nodes| ==> nodes[i].id != nodes[j].id
  }

  ghost predicate IsId<D>(nodes: seq<TaskNode<D>>, id: TaskId) {
    exists i :: 0 <= i < |nodes| && nodes[i].id == id
  }

  ghost predicate ParentsPresent<D>(nodes: seq<TaskNode<D>>) {
    forall i :: 0 <= i < |nodes| && nodes[i].parent.Some? ==> IsId(nodes, nodes[i].parent.value)
  }

  /** `m` holds exactly the given nodes under their ids. */
  ghost predicate Holds<D>(m: map<TaskId, TaskNode<D>>, nodes: seq<TaskNode<D>>) {
    && (forall i :: 0 <= i < |nodes| ==> nodes[i].id in m && m[nodes[i].id] == nodes[i])
    && (forall id :: id in m ==> IsId(nodes, id) && m[id].id == id)
  }

  lemma LeastOf(s: set<nat>) returns (m: nat)
    requires s != {}
    ensures m in s && forall x :: x in s ==> m <= x
  {
    m :| m in s;
    var others := s - {m};
    assert forall y :: y in s ==> y == m || y in others;
    if others != {} {
      var n := LeastOf(others);
      m := if n < m then n else m;
    }
  }

  /** The state of the second loop: the ids below all remaining ones are filed. */
  ghost predicate Filed<D>(m: map<TaskId, TaskNode<D>>, done: set<TaskId>, childMap: map<TaskId, seq<TaskId>>,
                           roots: seq<TaskId>) {
    && done <= m.Keys
    && (forall d, r :: d in done && r in m && r !in done ==> d < r)
    && LinksInside(m, done)
    && Listed(roots, m, done, None)
    && (forall p: nat :: Listed(Tree(m, childMap, roots).Children(p), m, done, Some(p)))
  }

  lemma AscendingPush(s: seq<nat>, x: nat)
    requires Ascending(s) && forall y :: y in s ==> y < x
    ensures Ascending(s + [x])
  {
    assert forall i :: 0 <= i < |s| ==> s[i] in s;
  }

  /** Filing the next id appends it to its own list and leaves the others right. */
  lemma ListedPush<D>(ids: seq<TaskId>, m: map<TaskId, TaskNode<D>>, done: set<TaskId>, parent: Option<TaskId>,
                      id: TaskId)
    requires done <= m.Keys && Listed(ids, m, done, parent) && id in m && id !in done
    requires forall d :: d in done ==> d < id
    ensures m[id].parent == parent ==> Listed(ids + [id], m, done + {id}, parent)
    ensures m[id].parent != parent ==> Listed(ids, m, done + {id}, parent)
  {
    if m[id].parent == parent {
      AscendingPush(ids, id);
    }
  }

  lemma FileNext<D>(m: map<TaskId, TaskNode<D>>, done: set<TaskId>, childMap: map<TaskId, seq<TaskId>>,
                    roots: seq<TaskId>, id: TaskId, childMap': map<TaskId, seq<TaskId>>, roots': seq<TaskId>)
    requires Filed(m, done, childMap, roots) && id in m && id !in done
    requires forall r :: r in m && r !in done ==> id <= r
    requires m[id].parent.Some? ==> m[id].parent.value in m
    requires roots' == if m[id].parent.None? then roots + [id] else roots
    requires childMap' == if m[id].parent.None? then childMap
                          else childMap[m[id].parent.value :=
                            Tree(m, childMap, roots).Children(m[id].parent.value) + [id]]
    ensures Filed(m, done + {id}, childMap', roots')
  {
    hide Listed;
    ListedPush(roots, m, done, None, id);
    forall p: nat ensures Listed(Tree(m, childMap', roots').Children(p), m, done + {id}, Some(p)) {
      ListedPush(Tree(m, childMap, roots).Children(p), m, done, Some(p), id);
    }
  }

  /** Build a tree from a flat list: refused exactly for a repeated id or,
      failing that, for a parent that is not in the list. */
  method TryFromNodes<D>(nodes: seq<TaskNode<D>>) returns (r: Result<Tree<D>, TreeError>)
    ensures r.Ok? <==> DistinctIds(nodes) && ParentsPresent(nodes)
    ensures r.Err? ==> (r.error.DuplicateId? <==> !DistinctIds(nodes))
    ensures r.Ok? ==> ValidTree(r.value) && Holds(r.value.nodes, nodes)
  {
    var byId: map<TaskId, TaskNode<D>> := map[];
    for i := 0 to |nodes|
      invariant DistinctIds(nodes[..i]) && Holds(byId, nodes[..i])
    {
      assert nodes[..i + 1] == nodes[..i] + [nodes[i]];
      if nodes[i].id in byId {
        var j :| 0 <= j < |nodes[..i]| && nodes[..i][j].id == nodes[i].id;
        assert nodes[j].id == nodes[i].id;
        return Err(DuplicateId);
      }
      byId := byId[nodes[i].id := nodes[i]];
      InsertHolds(byId, nodes, i);
    }
    assert nodes[..|nodes|] == nodes;
    r := FileAll(nodes, byId);
  }

  lemma InsertHolds<D>(m: map<TaskId, TaskNode<D>>, nodes: seq<TaskNode<D>>, i: nat)
    requires i < |nodes| && nodes[i].id in m && m[nodes[i].id] == nodes[i]
    requires forall j :: 0 <= j < i ==> nodes[j].id != nodes[i].id && nodes[j].id in m && m[nodes[j].id] == nodes[j]
    requires forall id :: id in m ==> id == nodes[i].id || (IsId(nodes[..i], id) && m[id].id == id)
    ensures Holds(m, nodes[..i + 1])
  {
    forall id | id in m ensures IsId(nodes[..i + 1], id) && m[id].id == id {
      if id == nodes[i].id {
        assert nodes[..i + 1][i].id == id;
      } else {
        var j :| 0 <= j < |nodes[..i]| && nodes[..i][j].id == id;
        assert nodes[..i + 1][j].id == id;
      }
    }
  }

  /** The second loop: hand each node, in ascending id, to its parent or to the roots. */
  method FileAll<D>(ghost nodes: seq<TaskNode<D>>, byId: map<TaskId, TaskNode<D>>)
      returns (r: Result<Tree<D>, TreeError>)
    requires Holds(byId, nodes)
    ensures r.Ok? <==> ParentsPresent(nodes)
    ensures r.Err? ==> r.error.DanglingParent?
    ensures r.Ok? ==> ValidTree(r.value) && r.value.nodes == byId
  {
    hide Listed, Filed, ParentsPresent;
    var childMap: map<TaskId, seq<TaskId>>, roots: seq<TaskId> := map[], [];
    NothingFiled(byId);
    var remaining := byId.Keys;
    assert byId.Keys - remaining == {};
    while remaining != {}
      invariant remaining <= byId.Keys && Filed(byId, byId.Keys - remaining, childMap, roots)
      decreases remaining
    {
      ghost var least := LeastOf(remaining);
      var id :| id in remaining && forall x :: x in remaining ==> id <= x;
      ghost var done := byId.Keys - remaining;
      assert byId.Keys - (remaining - {id}) == done + {id};
      ghost var childMap0, roots0 := childMap, roots;
      if byId[id].parent.None? {
        roots := roots + [id];
      } else {
        var parent := byId[id].parent.value;
        if parent !in byId {
          Dangling(nodes, byId, id);
          return Err(DanglingParent);
        }
        var siblings := if parent in childMap then childMap[parent] else [];
        childMap := childMap[parent := siblings + [id]];
      }
      FileNext(byId, done, childMap0, roots0, id, childMap, roots);
      remaining := remaining - {id};
    }
    assert byId.Keys - remaining == byId.Keys;
    FiledIsValid(nodes, byId, childMap, roots);
    return Ok(Tree(byId, childMap, roots));
  }

  lemma Dangling<D>(nodes: seq<TaskNode<D>>, m: map<TaskId, TaskNode<D>>, id: TaskId)
    requires Holds(m, nodes) && id in m && m[id].parent.Some? && m[id].parent.value !in m
    ensures !ParentsPresent(nodes)
  {
    assert IsId(nodes, id);
    var i :| 0 <= i < |nodes| && nodes[i].id == id;
    assert nodes[i] == m[id];
    assert !IsId(nodes, m[id].parent.value);
  }

  lemma FiledIsValid<D>(nodes: seq<TaskNode<D>>, m: map<TaskId, TaskNode<D>>, childMap: map<TaskId, seq<TaskId>>,
                        roots: seq<TaskId>)
    requires Holds(m, nodes) && Filed(m, m.Keys, childMap, roots)
    ensures ValidTree(Tree(m, childMap, roots)) && ParentsPresent(nodes)
  {
    NoneDangling(nodes, m);
  }

  lemma NothingFiled<D>(m: map<TaskId, TaskNode<D>>)
    ensures Filed(m, {}, map[], [])
  {
  }

  lemma NoneDangling<D>(nodes: seq<TaskNode<D>>, m: map<TaskId, TaskNode<D>>)
    requires Holds(m, nodes) && forall id :: id in m && m[id].parent.Some? ==> m[id].parent.value in m
    ensures ParentsPresent(nodes)
  {
    forall i | 0 <= i < |nodes| && nodes[i].parent.Some? ensures IsId(nodes, nodes[i].parent.value) {
      assert m[nodes[i].id] == nodes[i];
    }
  }
}
