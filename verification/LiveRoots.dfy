/** Live enumeration: from every stopped thread's runtime to numbered task roots. */
module LiveRoots {
  import opened Common
  import opened TaskTree
  import opened Forest
  import opened AwaitStack
  import opened FanOutWalk
  import opened DecodeTasks
  import opened OwnedTasks

  /** One stopped thread: the address of its `CONTEXT`, `None` without a thread
      pointer, an error if reading the pointer failed. */
  type Probe = Result<Option<nat>, WalkError>

  // ---- Collecting over threads ---------------------------------------------------------

  /** What one thread contributes: nothing, or the tasks of its runtime. */
  function TasksOf(h: Heap, t: Probe): Result<Option<seq<RawTask>>, WalkError> {
    var context :- t;
    if context.None? then Ok(None) else WalkContext(h, context.value)
  }

  ghost predicate FoundBy(h: Heap, t: Probe, task: RawTask) {
    TasksOf(h, t).Ok? && TasksOf(h, t).value.Some? && task in TasksOf(h, t).value.value
  }

  ghost predicate Found(h: Heap, threads: seq<Probe>, task: RawTask) {
    exists i :: 0 <= i < |threads| && FoundBy(h, threads[i], task)
  }

  function HasPointer(t: Probe): bool {
    t.Ok? && t.value.Some?
  }

  function HasRuntime(h: Heap, t: Probe): bool {
    TasksOf(h, t).Ok? && TasksOf(h, t).value.Some?
  }

  ghost predicate SomePointer(threads: seq<Probe>) {
    exists i :: 0 <= i < |threads| && HasPointer(threads[i])
  }

  ghost predicate SomeRuntime(h: Heap, threads: seq<Probe>) {
    exists i :: 0 <= i < |threads| && HasRuntime(h, threads[i])
  }

  ghost predicate NoneFails(h: Heap, threads: seq<Probe>) {
    forall i :: 0 <= i < |threads| ==> TasksOf(h, threads[i]).Ok?
  }

  /** The map under construction: keyed by header, holding exactly the tasks found so far. */
  ghost predicate Gathered(h: Heap, threads: seq<Probe>, m: map<nat, RawTask>) {
    && (forall k :: k in m ==> m[k].header == k && Found(h, threads, m[k]))
    && (forall task :: Found(h, threads, task) ==> task.header in m)
  }

  /** Two threads that reach the same node read the same task. */
  lemma HeaderDeterminesTask(h: Heap, threads: seq<Probe>, a: RawTask, b: RawTask)
    requires Found(h, threads, a) && Found(h, threads, b) && a.header == b.header
    ensures a == b
  {
    FoundRead(h, threads, a);
    FoundRead(h, threads, b);
  }

  lemma FoundRead(h: Heap, threads: seq<Probe>, a: RawTask)
    requires Found(h, threads, a)
    ensures ReadEntry(h, a.header).Ok? && ReadEntry(h, a.header).value.task == a
  {
    hide Collect, ReadEntry, Read;
    var i :| 0 <= i < |threads| && FoundBy(h, threads[i], a);
    var owned := OwnedAddr(h, threads[i].value.value).value.value;
    CollectedRead(h, owned, a);
  }

  lemma FoundPush(h: Heap, threads: seq<Probe>, i: nat, task: RawTask)
    requires i < |threads|
    ensures Found(h, threads[..i + 1], task) <==> Found(h, threads[..i], task) || FoundBy(h, threads[i], task)
  {
    hide FoundBy;
    if Found(h, threads[..i], task) {
      var j :| 0 <= j < i && FoundBy(h, threads[..i][j], task);
      assert FoundBy(h, threads[..i + 1][j], task);
    }
    if FoundBy(h, threads[i], task) {
      assert FoundBy(h, threads[..i + 1][i], task);
    }
    if Found(h, threads[..i + 1], task) {
      var j :| 0 <= j < i + 1 && FoundBy(h, threads[..i + 1][j], task);
      assert j < i ==> FoundBy(h, threads[..i][j], task);
    }
  }

  /** Insert one thread's tasks by header. */
  method InsertAll(m: map<nat, RawTask>, tasks: seq<RawTask>) returns (r: map<nat, RawTask>)
    requires forall k :: k in m ==> m[k].header == k
    ensures forall k :: k in r ==> r[k].header == k && (r[k] in tasks || (k in m && r[k] == m[k]))
    ensures forall k :: k in m ==> k in r
    ensures forall task :: task in tasks ==> task.header in r
  {
    r := m;
    for i := 0 to |tasks|
      invariant forall k :: k in r ==> r[k].header == k && (r[k] in tasks || (k in m && r[k] == m[k]))
      invariant forall k :: k in m ==> k in r
      invariant forall j :: 0 <= j < i ==> tasks[j].header in r
    {
      r := r[tasks[i].header := tasks[i]];
    }
  }

  lemma GatheredPush(h: Heap, threads: seq<Probe>, i: nat, m: map<nat, RawTask>, tasks: seq<RawTask>,
                     r: map<nat, RawTask>)
    requires i < |threads| && Gathered(h, threads[..i], m)
    requires forall task :: task in tasks <==> FoundBy(h, threads[i], task)
    requires forall k :: k in r ==> r[k].header == k && (r[k] in tasks || (k in m && r[k] == m[k]))
    requires forall k :: k in m ==> k in r
    requires forall task :: task in tasks ==> task.header in r
    ensures Gathered(h, threads[..i + 1], r)
  {
    hide Found, FoundBy;
    forall k | k in r ensures Found(h, threads[..i + 1], r[k]) {
      FoundPush(h, threads, i, r[k]);
    }
    forall task | Found(h, threads[..i + 1], task) ensures task.header in r {
      FoundPush(h, threads, i, task);
    }
  }

  lemma NothingFound(h: Heap)
    ensures Gathered(h, [], map[])
  {
  }

  /** `collect_raw`: fails with the first thread's failure; otherwise the tasks
      found on any thread, each once, by ascending header. */
  method CollectRaw(h: Heap, threads: seq<Probe>) returns (r: Result<seq<RawTask>, WalkError>)
    ensures r.Ok? <==> NoneFails(h, threads) && SomeRuntime(h, threads)
    ensures r.Ok? ==> forall i, j :: 0 <= i < j < |r.value| ==> r.value[i].header < r.value[j].header
    ensures r.Ok? ==> forall task :: task in r.value <==> Found(h, threads, task)
    ensures NoneFails(h, threads) && r.Err? ==>
              r.error == if SomePointer(threads) then NoRuntimeHandle else NoThreadPointer
    ensures !NoneFails(h, threads) ==>
              exists i :: 0 <= i < |threads| && NoneFails(h, threads[..i]) && TasksOf(h, threads[i]).Err?
                          && r == Err(TasksOf(h, threads[i]).error)
  {
    hide WalkContext, Gathered, Found;
    var byHeader: map<nat, RawTask> := map[];
    var anyPointer, anyRuntime := false, false;
    assert threads[..0] == [];
    NothingFound(h);
    for i := 0 to |threads|
      invariant NoneFails(h, threads[..i]) && Gathered(h, threads[..i], byHeader)
      invariant anyPointer <==> SomePointer(threads[..i])
      invariant anyRuntime <==> SomeRuntime(h, threads[..i])
    {
      PushThread(h, threads, i);
      if threads[i].Err? {
        return Err(threads[i].error);
      }
      ghost var before := byHeader;
      var tasks: seq<RawTask> := [];
      if threads[i].value.Some? {
        anyPointer := true;
        var walked := WalkContext(h, threads[i].value.value);
        if walked.Err? {
          return Err(walked.error);
        }
        if walked.value.Some? {
          anyRuntime := true;
          tasks := walked.value.value;
        }
      }
      HeadersKept(h, threads[..i], byHeader);
      byHeader := InsertAll(byHeader, tasks);
      GatheredPush(h, threads, i, before, tasks, byHeader);
    }
    assert threads[..|threads|] == threads;
    if !anyPointer {
      RuntimeNeedsPointer(h, threads);
      return Err(NoThreadPointer);
    }
    if !anyRuntime {
      return Err(NoRuntimeHandle);
    }
    HeadersKept(h, threads, byHeader);
    var sorted := SortedValues(byHeader);
    GatheredExact(h, threads, byHeader, sorted);
    return Ok(sorted);
  }

  lemma PushThread(h: Heap, threads: seq<Probe>, i: nat)
    requires i < |threads|
    ensures NoneFails(h, threads[..i + 1]) <==> NoneFails(h, threads[..i]) && TasksOf(h, threads[i]).Ok?
    ensures SomePointer(threads[..i + 1]) <==> SomePointer(threads[..i]) || HasPointer(threads[i])
    ensures SomeRuntime(h, threads[..i + 1]) <==> SomeRuntime(h, threads[..i]) || HasRuntime(h, threads[i])
    ensures TasksOf(h, threads[i]).Err? ==> !NoneFails(h, threads)
  {
    hide TasksOf, HasPointer, HasRuntime;
    var a, b := threads[..i], threads[..i + 1];
    assert b == a + [threads[i]];
    assert b[i] == threads[i];
    assert forall j :: 0 <= j < i ==> a[j] == b[j];
  }

  lemma RuntimeNeedsPointer(h: Heap, threads: seq<Probe>)
    ensures SomeRuntime(h, threads) ==> SomePointer(threads)
  {
    hide WalkContext;
    if SomeRuntime(h, threads) {
      var i :| 0 <= i < |threads| && HasRuntime(h, threads[i]);
      assert HasPointer(threads[i]);
    }
  }

  lemma HeadersKept(h: Heap, threads: seq<Probe>, m: map<nat, RawTask>)
    requires Gathered(h, threads, m)
    ensures forall k :: k in m ==> m[k].header == k
  {
  }

  lemma GatheredExact(h: Heap, threads: seq<Probe>, m: map<nat, RawTask>, tasks: seq<RawTask>)
    requires Gathered(h, threads, m) && forall t :: t in tasks <==> t.header in m && m[t.header] == t
    ensures forall t :: t in tasks <==> Found(h, threads, t)
  {
    hide Found;
    forall t | Found(h, threads, t) ensures t in tasks {
      HeaderDeterminesTask(h, threads, t, m[t.header]);
    }
  }

  /** `r` holds, in ascending order, the values of all keys but those in `left`, which are larger. */
  ghost predicate SortedBut(m: map<nat, RawTask>, r: seq<RawTask>, left: set<nat>) {
    && left <= m.Keys
    && (forall i, j :: 0 <= i < j < |r| ==> r[i].header < r[j].header)
    && (forall t, k :: t in r && k in left ==> t.header < k)
    && (forall t :: t in r <==> t.header in m && t.header !in left && m[t.header] == t)
  }

  lemma PushValue(m: map<nat, RawTask>, r: seq<RawTask>, left: set<nat>, k: nat)
    requires SortedBut(m, r, left) && k in left && forall x :: x in left ==> k <= x
    requires k in m && m[k].header == k
    ensures SortedBut(m, r + [m[k]], left - {k})
  {
    assert forall i :: 0 <= i < |r| ==> r[i] in r;
  }

  /** The values of a map in ascending key order. */
  method SortedValues(m: map<nat, RawTask>) returns (r: seq<RawTask>)
    requires forall k :: k in m ==> m[k].header == k
    ensures forall i, j :: 0 <= i < j < |r| ==> r[i].header < r[j].header
    ensures forall t :: t in r <==> t.header in m && m[t.header] == t
  {
    r := [];
    var left := m.Keys;
    while left != {}
      invariant SortedBut(m, r, left)
      decreases left
    {
      ghost var least := LeastOf(left);
      var k :| k in left && forall x :: x in left ==> k <= x;
      PushValue(m, r, left, k);
      r := r + [m[k]];
      left := left - {k};
    }
  }

  // ---- Numbering the roots -----------------------------------------------------------------

  /** The future type of a task, from its poll function's address without the load bias. */
  function TypeOf(task: RawTask, bias: nat, typeAt: nat -> Option<string>): Option<string> {
    typeAt((task.pollRuntime - bias) % 0x1_0000_0000_0000_0000)
  }

  function Kept(raw: seq<RawTask>, bias: nat, typeAt: nat -> Option<string>, layouts: Layouts): seq<RawTask> {
    if raw == [] then []
    else
      var init := Kept(raw[..|raw| - 1], bias, typeAt, layouts);
      var last := raw[|raw| - 1];
      var t := TypeOf(last, bias, typeAt);
      if t.Some? && t.value in layouts then init + [last] else init
  }

  /** Root `i` stands for the i-th kept task. */
  ghost predicate RootFor(root: Root, i: nat, task: RawTask, bias: nat, typeAt: nat -> Option<string>) {
    && TypeOf(task, bias, typeAt).Some?
    && root == Root(i + 1, task.future, TypeOf(task, bias, typeAt).value, Some(task.header))
  }

  /** `roots_from_raw`: the decodable tasks in order, numbered 1, 2, 3, ... */
  method RootsFromRaw(raw: seq<RawTask>, bias: nat, typeAt: nat -> Option<string>, layouts: Layouts)
      returns (roots: seq<Root>)
    ensures |roots| == |Kept(raw, bias, typeAt, layouts)|
    ensures forall i :: 0 <= i < |roots| ==> RootFor(roots[i], i, Kept(raw, bias, typeAt, layouts)[i], bias, typeAt)
    ensures AscendingRoots(roots)
    ensures forall i :: 0 <= i < |roots| ==> roots[i].typeName in layouts
  {
    roots := [];
    var nextId: TaskId := 1;
    for n := 0 to |raw|
      invariant nextId == |roots| + 1 && |roots| == |Kept(raw[..n], bias, typeAt, layouts)|
      invariant forall i :: 0 <= i < |roots| ==>
                  RootFor(roots[i], i, Kept(raw[..n], bias, typeAt, layouts)[i], bias, typeAt)
      invariant forall i :: 0 <= i < |roots| ==> roots[i].typeName in layouts
    {
      assert raw[..n + 1][..n] == raw[..n];
      var t := TypeOf(raw[n], bias, typeAt);
      if t.Some? && t.value in layouts {
        roots := roots + [Root(nextId, raw[n].future, t.value, Some(raw[n].header))];
        nextId := nextId + 1;
      }
    }
    assert raw[..|raw|] == raw;
  }

  /** Loaded with this bias, the function of type `name` runs at the task's poll address. */
  ghost predicate RunsAs(task: RawTask, bias: nat, typeAt: nat -> Option<string>, name: string) {
    exists base: nat :: PollsAt(task, bias, typeAt, name, base)
  }

  ghost predicate PollsAt(task: RawTask, bias: nat, typeAt: nat -> Option<string>, name: string, base: nat) {
    && base < 0x1_0000_0000_0000_0000 && (base + bias - task.pollRuntime) % 0x1_0000_0000_0000_0000 == 0
    && typeAt(base) == Some(name)
  }

  lemma SameResidue(x: int, y: int, m: nat)
    requires m > 0 && 0 <= x < m && 0 <= y < m && (x - y) % m == 0
    ensures x == y
  {
  }

  lemma TypeIsDebiased(task: RawTask, bias: nat, typeAt: nat -> Option<string>, name: string)
    ensures TypeOf(task, bias, typeAt) == Some(name) <==> RunsAs(task, bias, typeAt, name)
  {
    var m := 0x1_0000_0000_0000_0000;
    var base := (task.pollRuntime - bias) % m;
    if TypeOf(task, bias, typeAt) == Some(name) {
      assert PollsAt(task, bias, typeAt, name, base);
    }
    if RunsAs(task, bias, typeAt, name) {
      var other: nat :| PollsAt(task, bias, typeAt, name, other);
      assert (other - base) % m == 0;
      SameResidue(other, base, m);
    }
  }

  ghost predicate Decodable(task: RawTask, bias: nat, typeAt: nat -> Option<string>, layouts: Layouts) {
    exists name :: RunsAs(task, bias, typeAt, name) && name in layouts
  }

  /** Root `i` is this task: numbered from 1, at its future, of its type, with its header. */
  ghost predicate Stands(root: Root, i: nat, task: RawTask, bias: nat, typeAt: nat -> Option<string>) {
    && root.id == i + 1 && root.base == task.future && root.header == Some(task.header)
    && RunsAs(task, bias, typeAt, root.typeName)
  }

  lemma KeptAreDecodable(task: RawTask, bias: nat, typeAt: nat -> Option<string>, layouts: Layouts)
    ensures (TypeOf(task, bias, typeAt).Some? && TypeOf(task, bias, typeAt).value in layouts)
       <==> Decodable(task, bias, typeAt, layouts)
  {
    hide TypeOf, RunsAs;
    forall name ensures TypeOf(task, bias, typeAt) == Some(name) <==> RunsAs(task, bias, typeAt, name) {
      TypeIsDebiased(task, bias, typeAt, name);
    }
    if TypeOf(task, bias, typeAt).Some? {
      assert RunsAs(task, bias, typeAt, TypeOf(task, bias, typeAt).value);
    }
  }

  lemma RootStands(root: Root, i: nat, task: RawTask, bias: nat, typeAt: nat -> Option<string>)
    requires RootFor(root, i, task, bias, typeAt)
    ensures Stands(root, i, task, bias, typeAt)
  {
    TypeIsDebiased(task, bias, typeAt, root.typeName);
  }

  /** The kept tasks are the decodable ones, in the order given. */
  lemma {:induction false} KeptExactly(raw: seq<RawTask>, bias: nat, typeAt: nat -> Option<string>, layouts: Layouts)
    requires forall i, j :: 0 <= i < j < |raw| ==> raw[i].header < raw[j].header
    ensures var kept := Kept(raw, bias, typeAt, layouts);
            && (forall task :: task in kept <==> task in raw && Decodable(task, bias, typeAt, layouts))
            && (forall i, j :: 0 <= i < j < |kept| ==> kept[i].header < kept[j].header)
  {
    hide TypeOf, Decodable;
    if raw != [] {
      var init, last := raw[..|raw| - 1], raw[|raw| - 1];
      KeptExactly(init, bias, typeAt, layouts);
      KeptAreDecodable(last, bias, typeAt, layouts);
      assert raw == init + [last];
      assert forall task :: task in Kept(init, bias, typeAt, layouts) ==> task.header < last.header;
    }
  }

  /** The roots are exactly the decodable tasks found on any thread, by ascending header. */
  ghost predicate AreLive(roots: seq<Root>, h: Heap, threads: seq<Probe>, bias: nat, typeAt: nat -> Option<string>,
                          layouts: Layouts) {
    && (forall i, j :: 0 <= i < j < |roots| && roots[i].header.Some? && roots[j].header.Some? ==>
          roots[i].header.value < roots[j].header.value)
    && (forall i :: 0 <= i < |roots| ==> StandsForFound(roots[i], i, h, threads, bias, typeAt, layouts))
    && (forall task :: Found(h, threads, task) && Decodable(task, bias, typeAt, layouts) ==>
          HasRoot(roots, task, bias, typeAt))
  }

  ghost predicate StandsForFound(root: Root, i: nat, h: Heap, threads: seq<Probe>, bias: nat,
                                 typeAt: nat -> Option<string>, layouts: Layouts) {
    exists task :: Found(h, threads, task) && Decodable(task, bias, typeAt, layouts)
                   && Stands(root, i, task, bias, typeAt)
  }

  ghost predicate HasRoot(roots: seq<Root>, task: RawTask, bias: nat, typeAt: nat -> Option<string>) {
    exists i :: 0 <= i < |roots| && Stands(roots[i], i, task, bias, typeAt)
  }

  lemma RootsAreLive(roots: seq<Root>, raw: seq<RawTask>, h: Heap, threads: seq<Probe>, bias: nat,
                     typeAt: nat -> Option<string>, layouts: Layouts)
    requires forall i, j :: 0 <= i < j < |raw| ==> raw[i].header < raw[j].header
    requires forall task :: task in raw <==> Found(h, threads, task)
    requires var kept := Kept(raw, bias, typeAt, layouts);
             |roots| == |kept| && forall i :: 0 <= i < |roots| ==> RootFor(roots[i], i, kept[i], bias, typeAt)
    ensures AreLive(roots, h, threads, bias, typeAt, layouts)
  {
    KeptExactly(raw, bias, typeAt, layouts);
    hide Kept, Found, Decodable, RunsAs, TypeOf, RootFor;
    var kept := Kept(raw, bias, typeAt, layouts);
    forall i | 0 <= i < |roots| ensures Stands(roots[i], i, kept[i], bias, typeAt) {
      RootStands(roots[i], i, kept[i], bias, typeAt);
    }
    RootsAscend(roots, kept, bias, typeAt);
    hide Stands;
    RootsAreFound(roots, kept, h, threads, bias, typeAt, layouts);
    FoundHaveRoots(roots, kept, h, threads, bias, typeAt, layouts);
  }

  lemma RootsAreFound(roots: seq<Root>, kept: seq<RawTask>, h: Heap, threads: seq<Probe>, bias: nat,
                      typeAt: nat -> Option<string>, layouts: Layouts)
    requires |roots| == |kept| && forall i :: 0 <= i < |roots| ==> Stands(roots[i], i, kept[i], bias, typeAt)
    requires forall task :: task in kept ==> Found(h, threads, task) && Decodable(task, bias, typeAt, layouts)
    ensures forall i :: 0 <= i < |roots| ==> StandsForFound(roots[i], i, h, threads, bias, typeAt, layouts)
  {
    hide Found, Decodable, Stands;
    forall i | 0 <= i < |roots| ensures StandsForFound(roots[i], i, h, threads, bias, typeAt, layouts) {
      assert kept[i] in kept && Stands(roots[i], i, kept[i], bias, typeAt);
    }
  }

  lemma FoundHaveRoots(roots: seq<Root>, kept: seq<RawTask>, h: Heap, threads: seq<Probe>, bias: nat,
                       typeAt: nat -> Option<string>, layouts: Layouts)
    requires |roots| == |kept| && forall i :: 0 <= i < |roots| ==> Stands(roots[i], i, kept[i], bias, typeAt)
    requires forall task :: Found(h, threads, task) && Decodable(task, bias, typeAt, layouts) ==> task in kept
    ensures forall task :: Found(h, threads, task) && Decodable(task, bias, typeAt, layouts) ==>
              HasRoot(roots, task, bias, typeAt)
  {
    hide Found, Decodable, Stands;
    forall task | Found(h, threads, task) && Decodable(task, bias, typeAt, layouts)
      ensures HasRoot(roots, task, bias, typeAt)
    {
      var i :| 0 <= i < |kept| && kept[i] == task;
      assert Stands(roots[i], i, task, bias, typeAt);
    }
  }

  lemma RootsAscend(roots: seq<Root>, kept: seq<RawTask>, bias: nat, typeAt: nat -> Option<string>)
    requires |roots| == |kept| && forall i :: 0 <= i < |roots| ==> Stands(roots[i], i, kept[i], bias, typeAt)
    requires forall i, j :: 0 <= i < j < |kept| ==> kept[i].header < kept[j].header
    ensures forall i, j :: 0 <= i < j < |roots| && roots[i].header.Some? && roots[j].header.Some? ==>
              roots[i].header.value < roots[j].header.value
  {
  }

  // ---- The decoder's entry -------------------------------------------------------------------

  /** What live enumeration needs of the target; `bias` is `None` without a load base. */
  datatype Plan = Plan(heap: Heap, threads: seq<Probe>, bias: Option<nat>, typeAt: nat -> Option<string>)

  datatype TargetError = Declined | Failed(error: DecodeError)

  ghost predicate SomeDecodable(p: Plan, bias: nat, layouts: Layouts) {
    exists task :: Found(p.heap, p.threads, task) && Decodable(task, bias, p.typeAt, layouts)
  }

  /** A load base is known, every thread can be probed, one of them runs a runtime, and some
      task found is decodable. */
  ghost predicate Enumerable(plan: Option<Plan>, layouts: Layouts) {
    && plan.Some? && plan.value.bias.Some? && NoneFails(plan.value.heap, plan.value.threads)
    && SomeRuntime(plan.value.heap, plan.value.threads)
    && SomeDecodable(plan.value, plan.value.bias.value, layouts)
  }

  /** Explicit roots if there are any, else enumerated ones; no roots at all is refused. */
  method EffectiveRoots(explicit: seq<Root>, plan: Option<Plan>, layouts: Layouts)
      returns (r: Result<seq<Root>, TargetError>)
    ensures explicit != [] ==> r == Ok(explicit)
    ensures explicit == [] && r.Ok? ==> r.value != [] && AscendingRoots(r.value) && plan.Some?
    ensures explicit == [] && r.Ok? ==>
              && plan.value.bias.Some?
              && AreLive(r.value, plan.value.heap, plan.value.threads, plan.value.bias.value, plan.value.typeAt,
                         layouts)
    ensures explicit == [] ==>
              (r.Ok? <==> Enumerable(plan, layouts))
    ensures r.Err? ==> r.error == Declined
  {
    if explicit != [] {
      return Ok(explicit);
    }
    if plan.None? || plan.value.bias.None? {
      return Err(Declined);
    }
    var p := plan.value;
    var raw := CollectRaw(p.heap, p.threads);
    if raw.Err? {
      return Err(Declined);
    }
    var roots := RootsFromRaw(raw.value, p.bias.value, p.typeAt, layouts);
    RootsAreLive(roots, raw.value, p.heap, p.threads, p.bias.value, p.typeAt, layouts);
    SomeRootIffDecodable(roots, p, layouts);
    if roots == [] {
      return Err(Declined);
    }
    return Ok(roots);
  }

  lemma SomeRootIffDecodable(roots: seq<Root>, p: Plan, layouts: Layouts)
    requires p.bias.Some? && AreLive(roots, p.heap, p.threads, p.bias.value, p.typeAt, layouts)
    ensures roots != [] <==> SomeDecodable(p, p.bias.value, layouts)
  {
    hide Found, Decodable, Stands;
    if roots != [] {
      assert StandsForFound(roots[0], 0, p.heap, p.threads, p.bias.value, p.typeAt, layouts);
    }
  }

  /** Decode a target: a live-enumerated tree always exists once its walk
      succeeds, and its pre-order is the walk order. */
  method DecodeTarget(s: Scene, explicit: seq<Root>, plan: Option<Plan>)
      returns (roots: seq<Root>, r: Result<Tree<Task>, TargetError>)
    ensures explicit != [] ==> roots == explicit
    ensures r.Ok? ==> Enumerate(s, roots).Ok? && ValidTree(r.value) && Holds(r.value.nodes, Enumerate(s, roots).value)
    ensures r.Ok? && explicit == [] ==> Flatten(r.value) == Ids(Enumerate(s, roots).value)
    ensures explicit == [] && r.Err? && r.error.Failed? ==> Enumerate(s, roots) == Err(r.error.error)
    ensures r == Err(Declined) <==> explicit == [] && !Enumerable(plan, s.layouts)
    ensures r.Ok? <==> r != Err(Declined) && Enumerate(s, roots).Ok? && DistinctRoots(roots)
    ensures explicit == [] && r != Err(Declined) ==>
              AreLive(roots, plan.value.heap, plan.value.threads, plan.value.bias.value, plan.value.typeAt, s.layouts)
  {
    hide Enumerate, ValidTree, Holds, Flatten, Acyclic, AreLive, NoneFails, SomeRuntime, SomeDecodable;
    var effective := EffectiveRoots(explicit, plan, s.layouts);
    if effective.Err? {
      return explicit, Err(Declined);
    }
    roots := effective.value;
    var tree := Decode(s, roots);
    if tree.Err? {
      return roots, Err(Failed(tree.error));
    }
    return roots, Ok(tree.value);
  }
}
