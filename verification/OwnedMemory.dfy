/** Owned-task lists read off memory words alone. */
module OwnedMemory {
  import opened Common
  import opened TraceFormat
  import opened OwnedTasks

  /** Memory holds this little-endian word of eight bytes here. */
  ghost predicate Word(h: Heap, addr: nat, word: nat) {
    h.view(addr, 8).Some? && |h.view(addr, 8).value| == 8 && FromLE(h.view(addr, 8).value) == word
  }

  lemma ReadIsWord(h: Heap, addr: nat)
    ensures forall w: nat :: Read(h, addr) == Ok(w) <==> Word(h, addr, w)
    ensures Read(h, addr).Err? ==> Read(h, addr).error == Unreadable
  {
    hide FromLE;
  }

  // ---- One node ------------------------------------------------------------------------------

  /** A task node: its header names a vtable, which holds the poll function and says how far
      into the node the trailer with the next link lies. */
  ghost predicate NodeBy(h: Heap, node: nat, task: RawTask, next: nat, vtable: nat, trailer: nat) {
    && Word(h, node + h.layout.headerVtable, vtable)
    && Word(h, vtable + h.layout.vtablePoll, task.pollRuntime)
    && Word(h, vtable + h.layout.vtableTrailerOffset, trailer)
    && Word(h, node + trailer + h.layout.trailerOwnedNext, next)
    && task.header == node && task.future == node + h.layout.futureOffset
  }

  ghost predicate IsNode(h: Heap, node: nat, task: RawTask, next: nat) {
    exists vtable: nat, trailer: nat :: NodeBy(h, node, task, next, vtable, trailer)
  }

  lemma NodeRead(h: Heap, node: nat)
    requires ReadEntry(h, node).Ok?
    ensures IsNode(h, node, ReadEntry(h, node).value.task, ReadEntry(h, node).value.next)
  {
    hide Read, Word;
    var vtable := Read(h, node + h.layout.headerVtable).value;
    var trailer := Read(h, vtable + h.layout.vtableTrailerOffset).value;
    ReadIsWord(h, node + h.layout.headerVtable);
    ReadIsWord(h, vtable + h.layout.vtablePoll);
    ReadIsWord(h, vtable + h.layout.vtableTrailerOffset);
    ReadIsWord(h, node + trailer + h.layout.trailerOwnedNext);
    var entry := ReadEntry(h, node).value;
    assert NodeBy(h, node, entry.task, entry.next, vtable, trailer);
  }

  lemma NodeReads(h: Heap, node: nat, task: RawTask, next: nat, vtable: nat, trailer: nat)
    requires NodeBy(h, node, task, next, vtable, trailer)
    ensures ReadEntry(h, node) == Ok(Entry(task, next))
  {
    hide Read, Word;
    ReadIsWord(h, node + h.layout.headerVtable);
    ReadIsWord(h, vtable + h.layout.vtablePoll);
    ReadIsWord(h, vtable + h.layout.vtableTrailerOffset);
    ReadIsWord(h, node + trailer + h.layout.trailerOwnedNext);
  }

  /** An entry is read exactly when memory holds such a node there. */
  lemma EntryIsNode(h: Heap, node: nat, task: RawTask, next: nat)
    ensures ReadEntry(h, node) == Ok(Entry(task, next)) <==> IsNode(h, node, task, next)
    ensures ReadEntry(h, node).Err? ==> ReadEntry(h, node).error == Unreadable
  {
    hide Read, Word, NodeBy;
    if ReadEntry(h, node) == Ok(Entry(task, next)) {
      NodeRead(h, node);
    }
    if IsNode(h, node, task, next) {
      var vtable, trailer :| NodeBy(h, node, task, next, vtable, trailer);
      NodeReads(h, node, task, next, vtable, trailer);
    }
    OnlyUnreadable(h);
  }

  lemma OnlyUnreadable(h: Heap)
    ensures forall addr :: Read(h, addr).Err? ==> Read(h, addr).error == Unreadable
  {
    hide FromLE;
  }

  // ---- One list --------------------------------------------------------------------------------

  /** `links[i]` is the address of node `i`, and the last link is where the list goes on. */
  ghost predicate Linked(h: Heap, links: seq<nat>, tasks: seq<RawTask>) {
    && |links| == |tasks| + 1
    && forall i: nat :: i < |tasks| ==> links[i] != 0 && IsNode(h, links[i], tasks[i], links[i + 1])
  }

  /** The null-terminated list from `head`. */
  ghost predicate ListFrom(h: Heap, head: nat, tasks: seq<RawTask>) {
    exists links :: ListBy(h, head, tasks, links)
  }

  ghost predicate ListBy(h: Heap, head: nat, tasks: seq<RawTask>, links: seq<nat>) {
    Linked(h, links, tasks) && links[0] == head && links[|tasks|] == 0
  }

  lemma LinkedCons(h: Heap, node: nat, task: RawTask, links: seq<nat>, tasks: seq<RawTask>)
    requires links != []
    ensures Linked(h, [node] + links, [task] + tasks)
       <==> Linked(h, links, tasks) && node != 0 && IsNode(h, node, task, links[0])
  {
    hide IsNode;
    var all, ts := [node] + links, [task] + tasks;
    if Linked(h, all, ts) {
      assert all[0] != 0 && IsNode(h, all[0], ts[0], all[0 + 1]);
      forall i: nat | i < |tasks| ensures links[i] != 0 && IsNode(h, links[i], tasks[i], links[i + 1]) {
        assert all[i + 1] == links[i] && ts[i + 1] == tasks[i] && all[i + 1 + 1] == links[i + 1];
      }
    }
    if Linked(h, links, tasks) && node != 0 && IsNode(h, node, task, links[0]) {
      forall i: nat | i < |ts| ensures all[i] != 0 && IsNode(h, all[i], ts[i], all[i + 1]) {
        if i > 0 {
          assert IsNode(h, links[i - 1], tasks[i - 1], links[i - 1 + 1]);
        }
      }
    }
  }

  lemma {:induction false} ListHasLinks(h: Heap, head: nat, tasks: seq<RawTask>) returns (links: seq<nat>)
    requires IsList(h, head, tasks)
    ensures ListBy(h, head, tasks, links)
    decreases |tasks|
  {
    hide ReadEntry, IsNode;
    links := [head];
    if tasks != [] {
      var entry := ReadEntry(h, head).value;
      EntryIsNode(h, head, entry.task, entry.next);
      var rest := ListHasLinks(h, entry.next, tasks[1..]);
      LinkedCons(h, head, tasks[0], rest, tasks[1..]);
      assert tasks == [tasks[0]] + tasks[1..];
      links := [head] + rest;
    }
  }

  lemma {:induction false} LinksMakeList(h: Heap, links: seq<nat>, tasks: seq<RawTask>)
    requires Linked(h, links, tasks) && links[|tasks|] == 0
    ensures IsList(h, links[0], tasks)
    decreases |tasks|
  {
    hide ReadEntry, IsNode;
    if tasks != [] {
      assert links == [links[0]] + links[1..] && tasks == [tasks[0]] + tasks[1..];
      LinkedCons(h, links[0], tasks[0], links[1..], tasks[1..]);
      EntryIsNode(h, links[0], tasks[0], links[1]);
      LinksMakeList(h, links[1..], tasks[1..]);
    }
  }

  lemma ListIsLinked(h: Heap, head: nat, tasks: seq<RawTask>)
    ensures IsList(h, head, tasks) <==> ListFrom(h, head, tasks)
  {
    hide IsList, Linked, ListBy;
    if IsList(h, head, tasks) {
      var links := ListHasLinks(h, head, tasks);
    }
    if ListFrom(h, head, tasks) {
      var links :| ListBy(h, head, tasks, links);
      ListMade(h, head, tasks, links);
    }
  }

  lemma ListMade(h: Heap, head: nat, tasks: seq<RawTask>, links: seq<nat>)
    requires ListBy(h, head, tasks, links)
    ensures IsList(h, head, tasks)
  {
    LinksMakeList(h, links, tasks);
  }

  // ---- Where a walk stops ------------------------------------------------------------------------

  /** Following the links from `head` through these nodes, the walk meets a node it refuses: one
      past the limit, or one that is not readable. */
  ghost predicate StopsBy(h: Heap, head: nat, before: nat, e: WalkError, links: seq<nat>, tasks: seq<RawTask>) {
    && Linked(h, links, tasks) && links[0] == head && links[|tasks|] != 0
    && match e
       case TooManyListed => before + |tasks| == 0x10_0000
       case Unreadable => before + |tasks| < 0x10_0000 && NoNode(h, links[|tasks|])
       case _ => false
  }

  ghost predicate NoNode(h: Heap, node: nat) {
    forall task, next :: !IsNode(h, node, task, next)
  }

  lemma NoNodeRead(h: Heap, node: nat)
    ensures NoNode(h, node) <==> ReadEntry(h, node).Err?
    ensures ReadEntry(h, node).Err? ==> ReadEntry(h, node).error == Unreadable
  {
    hide ReadEntry, IsNode;
    forall task, next: nat
      ensures ReadEntry(h, node) == Ok(Entry(task, next)) <==> IsNode(h, node, task, next)
      ensures ReadEntry(h, node).Err? ==> ReadEntry(h, node).error == Unreadable
    {
      EntryIsNode(h, node, task, next);
    }
    EntryIsNode(h, node, RawTask(0, 0, 0), 0);
    if ReadEntry(h, node).Ok? {
      assert IsNode(h, node, ReadEntry(h, node).value.task, ReadEntry(h, node).value.next);
    }
  }

  /** A failing walk fails at the first node it refuses, and for that node's reason. */
  lemma {:induction false} FailsWhereItStops(h: Heap, head: nat, out: seq<RawTask>)
      returns (links: seq<nat>, tasks: seq<RawTask>)
    requires |out| <= 0x10_0000 && Walk(h, head, out).Err?
    ensures StopsBy(h, head, |out|, Walk(h, head, out).error, links, tasks)
    decreases 0x10_0000 - |out|
  {
    hide ReadEntry, IsNode, NoNode;
    NoNodeRead(h, head);
    links, tasks := [head], [];
    if |out| < 0x10_0000 && ReadEntry(h, head).Ok? {
      var entry := ReadEntry(h, head).value;
      EntryIsNode(h, head, entry.task, entry.next);
      var restLinks, restTasks := FailsWhereItStops(h, entry.next, out + [entry.task]);
      LinkedCons(h, head, entry.task, restLinks, restTasks);
      links, tasks := [head] + restLinks, [entry.task] + restTasks;
    }
  }

  // ---- All lists -----------------------------------------------------------------------------------

  /** The list of one shard: its head lies in the shard's mutex, a stride per shard. */
  ghost predicate ShardList(h: Heap, data: nat, shard: nat, tasks: seq<RawTask>) {
    exists head: nat :: ShardBy(h, data, shard, tasks, head)
  }

  ghost predicate ShardBy(h: Heap, data: nat, shard: nat, tasks: seq<RawTask>, head: nat) {
    Word(h, data + h.layout.shardStride * shard + h.layout.mutexData + h.layout.listHead, head)
    && ListFrom(h, head, tasks)
  }

  ghost predicate AllShards(h: Heap, data: nat, lists: seq<seq<RawTask>>) {
    forall i: nat :: i < |lists| ==> ShardList(h, data, i, lists[i])
  }

  /** The owned tasks: a slice of at most 65536 shards, whose lists hold at most 2^20 tasks in all. */
  ghost predicate Owns(h: Heap, owned: nat, data: nat, lists: seq<seq<RawTask>>, all: seq<RawTask>) {
    var slice := owned + h.layout.ownedList + h.layout.shardedLists;
    && Word(h, slice, data) && Word(h, slice + 8, |lists|) && |lists| <= 0x1_0000
    && AllShards(h, data, lists) && all == Joined(lists) && |all| <= 0x10_0000
  }

  lemma HoldsIsList(h: Heap, data: nat, shard: nat, tasks: seq<RawTask>)
    ensures ShardHolds(h, data, shard, tasks) <==> ShardList(h, data, shard, tasks)
  {
    hide Read, Word, IsList, ListFrom;
    assert shard * h.layout.shardStride == h.layout.shardStride * shard;
    ReadIsWord(h, data + shard * h.layout.shardStride + h.layout.mutexData + h.layout.listHead);
    if ShardHolds(h, data, shard, tasks) {
      var head := ShardHead(h, data, shard).value;
      ListIsLinked(h, head, tasks);
      assert ShardBy(h, data, shard, tasks, head);
    }
    if ShardList(h, data, shard, tasks) {
      var head :| ShardBy(h, data, shard, tasks, head);
      ListIsLinked(h, head, tasks);
    }
  }

  lemma ShardsAreLists(h: Heap, data: nat, lists: seq<seq<RawTask>>)
    ensures ShardLists(h, data, 0, lists) <==> AllShards(h, data, lists)
  {
    hide ShardHolds, ShardList;
    forall i: nat | i < |lists|
      ensures ShardHolds(h, data, 0 + i, lists[i]) <==> ShardList(h, data, i, lists[i])
    {
      HoldsIsList(h, data, i, lists[i]);
    }
    if ShardLists(h, data, 0, lists) {
      forall i: nat | i < |lists| ensures ShardList(h, data, i, lists[i]) {
        assert ShardHolds(h, data, 0 + i, lists[i]);
      }
    }
  }

  ghost predicate Collection(h: Heap, owned: nat, all: seq<RawTask>) {
    exists data: nat, lists :: Owns(h, owned, data, lists, all)
  }

  /** Collecting returns these tasks exactly when memory holds them in such lists. */
  lemma CollectIsMemory(h: Heap, owned: nat, all: seq<RawTask>)
    ensures Collect(h, owned, []) == Ok(all) <==> Collection(h, owned, all)
  {
    hide Read, Word, Collect, ShardLists, AllShards, Joined;
    CollectExact(h, owned, all);
    var slice := owned + h.layout.ownedList + h.layout.shardedLists;
    ReadIsWord(h, slice);
    ReadIsWord(h, slice + 8);
    if Collect(h, owned, []) == Ok(all) {
      var data := Read(h, slice).value;
      var lists :| |lists| == Read(h, slice + 8).value && ShardLists(h, data, 0, lists) && Joined(lists) == all
                   && |all| <= MAX_LISTED;
      ShardsAreLists(h, data, lists);
      assert Owns(h, owned, data, lists, all);
    }
    if Collection(h, owned, all) {
      var data: nat, lists :| Owns(h, owned, data, lists, all);
      ShardsAreLists(h, data, lists);
      assert Read(h, slice) == Ok(data) && Read(h, slice + 8) == Ok(|lists|);
    }
  }

  /** The context's handle cell holds the runtime's shared block, null outside a runtime. */
  ghost predicate ThreadTasks(h: Heap, context: nat, r: Option<seq<RawTask>>, arc: nat) {
    && Word(h, context + h.layout.contextCurrent + h.layout.handleCellValue, arc)
    && (if arc == 0 then r.None?
        else r.Some? && Collection(h, arc + h.layout.arcData + h.layout.handleShared + h.layout.sharedOwned, r.value))
  }

  /** What a thread's context yields is what memory holds behind its handle. */
  lemma ContextIsMemory(h: Heap, context: nat, r: Option<seq<RawTask>>)
    ensures WalkContext(h, context) == Ok(r) <==> exists arc: nat :: ThreadTasks(h, context, r, arc)
  {
    hide Read, Word, Collect, Collection;
    var cell := context + h.layout.contextCurrent + h.layout.handleCellValue;
    ReadIsWord(h, cell);
    if Read(h, cell).Ok? {
      var arc := Read(h, cell).value;
      assert Word(h, cell, arc);
      var owned := arc + h.layout.arcData + h.layout.handleShared + h.layout.sharedOwned;
      forall all: seq<RawTask> ensures Collect(h, owned, []) == Ok(all) <==> Collection(h, owned, all) {
        CollectIsMemory(h, owned, all);
      }
      if WalkContext(h, context) == Ok(r) {
        assert ThreadTasks(h, context, r, arc);
      }
    }
  }
}
