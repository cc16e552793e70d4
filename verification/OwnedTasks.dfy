/** Walking Tokio's sharded intrusive task lists over arbitrary target memory. */
module OwnedTasks {
  import opened Common
  import opened TraceFormat
  import opened AwaitStack

  const MAX_SHARDS: nat := 0x1_0000
  const MAX_LISTED: nat := 0x10_0000

  datatype RawTask = RawTask(header: nat, pollRuntime: nat, future: nat)

  datatype WalkError = Unreadable | TooManyShards | TooManyListed | NoThreadPointer | NoRuntimeHandle

  /** Byte offsets inside the runtime's structures. */
  datatype RuntimeLayout = RuntimeLayout(
    contextCurrent: nat, handleCellValue: nat, arcData: nat, handleShared: nat, sharedOwned: nat,
    ownedList: nat, shardedLists: nat, shardStride: nat, mutexData: nat, listHead: nat,
    headerVtable: nat, vtablePoll: nat, vtableTrailerOffset: nat, trailerOwnedNext: nat, futureOffset: nat)

  /** Memory with the layout it is read by. */
  datatype Heap = Heap(view: View, layout: RuntimeLayout)

  /** A short read is a failed read. */
  function Read(h: Heap, addr: nat): Result<nat, WalkError> {
    match h.view(addr, 8)
    case None => Err(Unreadable)
    case Some(bytes) => if |bytes| == 8 then Ok(FromLE(bytes)) else Err(Unreadable)
  }

  /** A list node: its task and the link to the next node. */
  datatype Entry = Entry(task: RawTask, next: nat)

  function ReadEntry(h: Heap, node: nat): Result<Entry, WalkError> {
    var vtable :- Read(h, node + h.layout.headerVtable);
    var poll :- Read(h, vtable + h.layout.vtablePoll);
    var trailer :- Read(h, vtable + h.layout.vtableTrailerOffset);
    var next :- Read(h, node + trailer + h.layout.trailerOwnedNext);
    Ok(Entry(RawTask(node, poll, node + h.layout.futureOffset), next))
  }

  // ---- What a list is -----------------------------------------------------------------

  /** `tasks` are the nodes of the list at `head`, in link order, up to its null. */
  ghost predicate IsList(h: Heap, head: nat, tasks: seq<RawTask>)
    decreases |tasks|
  {
    if tasks == [] then head == 0
    else head != 0 && ReadEntry(h, head).Ok? && ReadEntry(h, head).value.task == tasks[0]
         && IsList(h, ReadEntry(h, head).value.next, tasks[1..])
  }

  ghost predicate EndsWithin(h: Heap, head: nat, room: nat) {
    exists tasks :: IsList(h, head, tasks) && |tasks| <= room
  }

  lemma {:induction false} ListUnique(h: Heap, head: nat, a: seq<RawTask>, b: seq<RawTask>)
    requires IsList(h, head, a) && IsList(h, head, b)
    ensures a == b
    decreases |a|
  {
    if a != [] && b != [] {
      ListUnique(h, ReadEntry(h, head).value.next, a[1..], b[1..]);
      assert a == [a[0]] + a[1..] && b == [b[0]] + b[1..];
    }
  }

  lemma {:induction false} ListDrop(h: Heap, head: nat, tasks: seq<RawTask>, k: nat)
    requires IsList(h, head, tasks) && k < |tasks|
    ensures IsList(h, tasks[k].header, tasks[k..])
    ensures ReadEntry(h, tasks[k].header).Ok? && ReadEntry(h, tasks[k].header).value.task == tasks[k]
    decreases k
  {
    if k > 0 {
      ListDrop(h, ReadEntry(h, head).value.next, tasks[1..], k - 1);
      assert tasks[1..][k - 1..] == tasks[k..];
    }
  }

  /** A list that ends never visits a node twice. */
  lemma ListDistinct(h: Heap, head: nat, tasks: seq<RawTask>)
    requires IsList(h, head, tasks)
    ensures forall i, j :: 0 <= i < j < |tasks| ==> tasks[i].header != tasks[j].header
  {
    forall i, j | 0 <= i < j < |tasks| ensures tasks[i].header != tasks[j].header {
      ListDrop(h, head, tasks, i);
      ListDrop(h, head, tasks, j);
      if tasks[i].header == tasks[j].header {
        ListUnique(h, tasks[i].header, tasks[i..], tasks[j..]);
      }
    }
  }

  /** `hops` links lead from `a` to `b` without meeting null on the way. */
  ghost predicate Leads(h: Heap, a: nat, b: nat, hops: nat)
    decreases hops
  {
    if hops == 0 then a == b
    else a != 0 && ReadEntry(h, a).Ok? && Leads(h, ReadEntry(h, a).value.next, b, hops - 1)
  }

  lemma {:induction false} LeadsInside(h: Heap, head: nat, tasks: seq<RawTask>, b: nat, hops: nat)
    requires IsList(h, head, tasks) && Leads(h, head, b, hops)
    ensures hops <= |tasks| && IsList(h, b, tasks[hops..])
    decreases hops
  {
    if hops > 0 {
      LeadsInside(h, ReadEntry(h, head).value.next, tasks[1..], b, hops - 1);
      assert tasks[1..][hops - 1..] == tasks[hops..];
    } else {
      assert tasks[0..] == tasks;
    }
  }

  /** A list that leads back into itself, at any node after any number of links, has no end. */
  lemma CycleNeverEnds(h: Heap, head: nat, node: nat, lead: nat, loop: nat)
    requires Leads(h, head, node, lead) && loop > 0 && Leads(h, node, node, loop)
    ensures forall room :: !EndsWithin(h, head, room)
  {
    forall tasks | IsList(h, head, tasks) ensures false {
      LeadsInside(h, head, tasks, node, lead);
      LeadsInside(h, node, tasks[lead..], node, loop);
      ListUnique(h, node, tasks[lead..], tasks[lead..][loop..]);
    }
  }

  // ---- One shard -------------------------------------------------------------------------

  /** The guarded walk: refuse the node past the limit, otherwise read and push it. */
  function Walk(h: Heap, node: nat, out: seq<RawTask>): Result<seq<RawTask>, WalkError>
    decreases MAX_LISTED - |out|
  {
    if node == 0 then Ok(out)
    else if |out| >= MAX_LISTED then Err(TooManyListed)
    else
      var entry :- ReadEntry(h, node);
      Walk(h, entry.next, out + [entry.task])
  }

  method WalkShard(h: Heap, head: nat, out: seq<RawTask>) returns (r: Result<seq<RawTask>, WalkError>)
    ensures r == Walk(h, head, out)
  {
    hide Read;
    var node: nat, tasks := head, out;
    while node != 0
      invariant Walk(h, head, out) == Walk(h, node, tasks)
      decreases MAX_LISTED - |tasks|
    {
      if |tasks| >= MAX_LISTED {
        return Err(TooManyListed);
      }
      var vtable := Read(h, node + h.layout.headerVtable);
      if vtable.Err? {
        return Err(vtable.error);
      }
      var poll := Read(h, vtable.value + h.layout.vtablePoll);
      if poll.Err? {
        return Err(poll.error);
      }
      var trailer := Read(h, vtable.value + h.layout.vtableTrailerOffset);
      if trailer.Err? {
        return Err(trailer.error);
      }
      tasks := tasks + [RawTask(node, poll.value, node + h.layout.futureOffset)];
      var next := Read(h, node + trailer.value + h.layout.trailerOwnedNext);
      if next.Err? {
        return Err(next.error);
      }
      node := next.value;
    }
    return Ok(tasks);
  }

  lemma {:induction false} WalkFinds(h: Heap, node: nat, out: seq<RawTask>)
    requires |out| <= MAX_LISTED && Walk(h, node, out).Ok?
    ensures var all := Walk(h, node, out).value;
            out <= all && |all| <= MAX_LISTED && IsList(h, node, all[|out|..])
    decreases MAX_LISTED - |out|
  {
    hide ReadEntry;
    if node != 0 {
      var entry := ReadEntry(h, node).value;
      WalkFinds(h, entry.next, out + [entry.task]);
      var all := Walk(h, node, out).value;
      assert all[|out|..][1..] == all[|out| + 1..];
      assert all[|out|] == (out + [entry.task])[|out|];
    }
  }

  lemma {:induction false} WalkReturns(h: Heap, node: nat, out: seq<RawTask>, tasks: seq<RawTask>)
    requires IsList(h, node, tasks) && |out| + |tasks| <= MAX_LISTED
    ensures Walk(h, node, out) == Ok(out + tasks)
    decreases |tasks|
  {
    hide ReadEntry;
    if tasks == [] {
      assert out + tasks == out;
    } else {
      WalkReturns(h, ReadEntry(h, node).value.next, out + [tasks[0]], tasks[1..]);
      assert out + [tasks[0]] + tasks[1..] == out + tasks;
    }
  }

  /** The walk of a list returns exactly its nodes in link order when it ends within the limit, and fails otherwise. */
  lemma WalkExact(h: Heap, head: nat, out: seq<RawTask>)
    requires |out| <= MAX_LISTED
    ensures Walk(h, head, out).Ok? <==> EndsWithin(h, head, MAX_LISTED - |out|)
    ensures forall tasks :: IsList(h, head, tasks) && |out| + |tasks| <= MAX_LISTED ==>
              Walk(h, head, out) == Ok(out + tasks)
  {
    hide Walk, IsList;
    if Walk(h, head, out).Ok? {
      WalkFinds(h, head, out);
      var all := Walk(h, head, out).value;
      assert IsList(h, head, all[|out|..]);
    }
    forall tasks | IsList(h, head, tasks) && |out| + |tasks| <= MAX_LISTED
      ensures Walk(h, head, out) == Ok(out + tasks)
    {
      WalkReturns(h, head, out, tasks);
    }
  }

  /** Any cycle makes the walk fail. */
  lemma CycleIsRefused(h: Heap, head: nat, node: nat, lead: nat, loop: nat, out: seq<RawTask>)
    requires Leads(h, head, node, lead) && loop > 0 && Leads(h, node, node, loop) && |out| <= MAX_LISTED
    ensures Walk(h, head, out).Err?
  {
    CycleNeverEnds(h, head, node, lead, loop);
    WalkExact(h, head, out);
  }

  // ---- All shards ----------------------------------------------------------------------------

  function ShardHead(h: Heap, data: nat, shard: nat): Result<nat, WalkError> {
    Read(h, data + shard * h.layout.shardStride + h.layout.mutexData + h.layout.listHead)
  }

  function Shards(h: Heap, data: nat, shard: nat, len: nat, out: seq<RawTask>): Result<seq<RawTask>, WalkError>
    requires shard <= len
    decreases len - shard
  {
    if shard == len then Ok(out)
    else
      var head :- ShardHead(h, data, shard);
      var out1 :- Walk(h, head, out);
      Shards(h, data, shard + 1, len, out1)
  }

  function Collect(h: Heap, owned: nat, out: seq<RawTask>): Result<seq<RawTask>, WalkError> {
    var list := owned + h.layout.ownedList + h.layout.shardedLists;
    var data :- Read(h, list);
    var len :- Read(h, list + 8);
    if len > MAX_SHARDS then Err(TooManyShards) else Shards(h, data, 0, len, out)
  }

  method CollectFromOwned(h: Heap, owned: nat, out: seq<RawTask>) returns (r: Result<seq<RawTask>, WalkError>)
    ensures r == Collect(h, owned, out)
  {
    hide Read, Walk;
    var list := owned + h.layout.ownedList;
    var data := Read(h, list + h.layout.shardedLists);
    if data.Err? {
      return Err(data.error);
    }
    var len := Read(h, list + h.layout.shardedLists + 8);
    if len.Err? {
      return Err(len.error);
    }
    if len.value > MAX_SHARDS {
      return Err(TooManyShards);
    }
    var tasks := out;
    for shard := 0 to len.value
      invariant Collect(h, owned, out) == Shards(h, data.value, shard, len.value, tasks)
    {
      var head := ShardHead(h, data.value, shard);
      if head.Err? {
        return Err(head.error);
      }
      var step := WalkShard(h, head.value, tasks);
      if step.Err? {
        return Err(step.error);
      }
      tasks := step.value;
    }
    return Ok(tasks);
  }

  /** The lists of the shards from `shard` on, one after another. */
  ghost predicate ShardLists(h: Heap, data: nat, shard: nat, lists: seq<seq<RawTask>>) {
    forall i: nat :: i < |lists| ==> ShardHolds(h, data, shard + i, lists[i])
  }

  ghost predicate ShardHolds(h: Heap, data: nat, shard: nat, list: seq<RawTask>) {
    ShardHead(h, data, shard).Ok? && IsList(h, ShardHead(h, data, shard).value, list)
  }

  lemma ShardAt(h: Heap, data: nat, shard: nat, lists: seq<seq<RawTask>>, i: nat)
    requires ShardLists(h, data, shard, lists) && i < |lists|
    ensures ShardHolds(h, data, shard + i, lists[i])
  {
  }

  function Joined(lists: seq<seq<RawTask>>): seq<RawTask> {
    if lists == [] then [] else lists[0] + Joined(lists[1..])
  }

  lemma TailLists(h: Heap, data: nat, shard: nat, lists: seq<seq<RawTask>>)
    requires lists != []
    ensures ShardLists(h, data, shard, lists)
       <==> ShardHolds(h, data, shard, lists[0]) && ShardLists(h, data, shard + 1, lists[1..])
  {
    hide ShardHolds;
    if ShardLists(h, data, shard, lists) {
      assert ShardHolds(h, data, shard + 0, lists[0]);
      forall i: nat | i < |lists[1..]| ensures ShardHolds(h, data, shard + 1 + i, lists[1..][i]) {
        assert ShardHolds(h, data, shard + (i + 1), lists[i + 1]);
      }
    }
    if ShardHolds(h, data, shard, lists[0]) && ShardLists(h, data, shard + 1, lists[1..]) {
      forall i: nat | i < |lists| ensures ShardHolds(h, data, shard + i, lists[i]) {
        if i > 0 {
          assert ShardHolds(h, data, shard + 1 + (i - 1), lists[1..][i - 1]);
        }
      }
    }
  }

  lemma {:induction false} ShardsReturn(h: Heap, data: nat, shard: nat, lists: seq<seq<RawTask>>, out: seq<RawTask>)
    requires ShardLists(h, data, shard, lists) && |out| + |Joined(lists)| <= MAX_LISTED
    ensures Shards(h, data, shard, shard + |lists|, out) == Ok(out + Joined(lists))
    decreases |lists|
  {
    hide Walk, ShardHead, ShardLists, IsList;
    if lists == [] {
      assert out + [] == out;
    } else {
      TailLists(h, data, shard, lists);
      WalkReturns(h, ShardHead(h, data, shard).value, out, lists[0]);
      ShardsReturn(h, data, shard + 1, lists[1..], out + lists[0]);
      assert out + lists[0] + Joined(lists[1..]) == out + Joined(lists);
    }
  }

  lemma {:induction false} ShardsFind(h: Heap, data: nat, shard: nat, len: nat, out: seq<RawTask>)
      returns (lists: seq<seq<RawTask>>)
    requires shard <= len && |out| <= MAX_LISTED && Shards(h, data, shard, len, out).Ok?
    ensures |lists| == len - shard && ShardLists(h, data, shard, lists)
    ensures Shards(h, data, shard, len, out).value == out + Joined(lists) && |out| + |Joined(lists)| <= MAX_LISTED
    decreases len - shard
  {
    hide Walk, ShardHead, IsList;
    if shard == len {
      lists := [];
      assert out + [] == out;
    } else {
      hide ShardLists;
      var head := ShardHead(h, data, shard).value;
      var out1 := Walk(h, head, out).value;
      WalkFinds(h, head, out);
      var rest := ShardsFind(h, data, shard + 1, len, out1);
      var first := out1[|out|..];
      assert out1 == out + first;
      lists := [first] + rest;
      assert lists[1..] == rest;
      TailLists(h, data, shard, lists);
      assert out + first + Joined(rest) == out + Joined(lists);
    }
  }

  ghost predicate AllEnd(h: Heap, data: nat, len: nat, room: nat, all: seq<RawTask>) {
    exists lists :: |lists| == len && ShardLists(h, data, 0, lists) && Joined(lists) == all && |all| <= room
  }

  /** On any memory the walk succeeds if and only if the slice is readable, the
      shard count plausible, and every shard's list ends in null with at most
      MAX tasks in all; it then returns exactly the nodes, in shard then link order. */
  lemma CollectExact(h: Heap, owned: nat, all: seq<RawTask>)
    ensures var list := owned + h.layout.ownedList + h.layout.shardedLists;
            var data, len := Read(h, list), Read(h, list + 8);
            && (Collect(h, owned, []) == Ok(all) <==>
                && data.Ok? && len.Ok? && len.value <= MAX_SHARDS
                && AllEnd(h, data.value, len.value, MAX_LISTED, all))
  {
    hide Read, Shards, ShardLists, Joined;
    var list := owned + h.layout.ownedList + h.layout.shardedLists;
    var data, len := Read(h, list), Read(h, list + 8);
    if data.Ok? && len.Ok? && len.value <= MAX_SHARDS {
      if Shards(h, data.value, 0, len.value, []) == Ok(all) {
        var lists := ShardsFind(h, data.value, 0, len.value, []);
        assert [] + Joined(lists) == Joined(lists);
      }
      if AllEnd(h, data.value, len.value, MAX_LISTED, all) {
        var lists :| |lists| == len.value && ShardLists(h, data.value, 0, lists) && Joined(lists) == all;
        ShardsReturn(h, data.value, 0, lists, []);
        assert [] + Joined(lists) == Joined(lists);
      }
    }
  }

  /** One shard whose list runs into a cycle makes the whole walk fail. */
  lemma CyclicShardIsRefused(h: Heap, owned: nat, data: nat, len: nat, shard: nat, head: nat, node: nat, lead: nat,
                             loop: nat)
    requires var list := owned + h.layout.ownedList + h.layout.shardedLists;
             Read(h, list) == Ok(data) && Read(h, list + 8) == Ok(len)
    requires shard < len && ShardHead(h, data, shard) == Ok(head)
    requires Leads(h, head, node, lead) && loop > 0 && Leads(h, node, node, loop)
    ensures Collect(h, owned, []).Err?
  {
    hide Read, Shards, IsList, Leads, ShardHead;
    if Collect(h, owned, []).Ok? {
      CollectExact(h, owned, Collect(h, owned, []).value);
      var lists :| |lists| == len && ShardLists(h, data, 0, lists);
      ShardAt(h, data, 0, lists, shard);
      assert EndsWithin(h, head, |lists[shard]|);
      CycleNeverEnds(h, head, node, lead, loop);
    }
  }

  lemma {:induction false} JoinedTask(lists: seq<seq<RawTask>>, t: RawTask) returns (i: nat)
    requires t in Joined(lists)
    ensures i < |lists| && t in lists[i]
  {
    if t in lists[0] {
      i := 0;
    } else {
      var j := JoinedTask(lists[1..], t);
      i := j + 1;
    }
  }

  /** Every collected task is what its header's node reads as, so a header determines its task. */
  lemma CollectedRead(h: Heap, owned: nat, t: RawTask)
    requires Collect(h, owned, []).Ok? && t in Collect(h, owned, []).value
    ensures ReadEntry(h, t.header).Ok? && ReadEntry(h, t.header).value.task == t
  {
    hide Read, Shards, IsList, ShardHead, ReadEntry;
    var all := Collect(h, owned, []).value;
    CollectExact(h, owned, all);
    var list := owned + h.layout.ownedList + h.layout.shardedLists;
    var data := Read(h, list).value;
    var lists :| ShardLists(h, data, 0, lists) && Joined(lists) == all;
    var i := JoinedTask(lists, t);
    ShardAt(h, data, 0, lists, i);
    var k :| 0 <= k < |lists[i]| && lists[i][k] == t;
    ListDrop(h, ShardHead(h, data, i).value, lists[i], k);
  }

  // ---- From a thread's context -----------------------------------------------------------------

  /** `None` for a null `Arc`: this thread has not entered a runtime. */
  function OwnedAddr(h: Heap, context: nat): Result<Option<nat>, WalkError> {
    var arc :- Read(h, context + h.layout.contextCurrent + h.layout.handleCellValue);
    if arc == 0 then Ok(None)
    else Ok(Some(arc + h.layout.arcData + h.layout.handleShared + h.layout.sharedOwned))
  }

  /** `None` if the thread holds no runtime handle, otherwise its tasks. */
  function WalkContext(h: Heap, context: nat): Result<Option<seq<RawTask>>, WalkError> {
    var owned :- OwnedAddr(h, context);
    match owned
    case None => Ok(None)
    case Some(addr) =>
      var tasks :- Collect(h, addr, []);
      Ok(Some(tasks))
  }
}
