/** When a walk succeeds: the fan-out in memory must be a finite tree of readable coroutines. */
module FanOutFamily {
  import opened Common
  import opened TraceFormat
  import opened TaskTree
  import opened AwaitStack
  import opened AwaitChain
  import opened FanOutWalk

  /** A coroutine with, under it, the coroutines it fans out to. */
  datatype Family = Family(at: ChildRef, kids: seq<Family>)

  function Count(f: Family): nat {
    1 + CountAll(f.kids)
  }

  function CountAll(fs: seq<Family>): nat {
    if fs == [] then 0 else Count(fs[0]) + CountAll(fs[1..])
  }

  /** State and wake cause of the coroutine here can be read. */
  ghost predicate Readable(s: Scene, at: ChildRef, header: Option<nat>) {
    exists state, wake :: Observed(s, at.offset, at.typeName, header, state, wake)
  }

  /** The family is the one memory holds: all its coroutines are readable, and the kids of each
      are, one for one, the inline children of the variant memory selects. */
  ghost predicate InMemory(s: Scene, f: Family, header: Option<nat>) {
    && Readable(s, f.at, header)
    && (exists v :: Branches(s, f, v))
    && forall c :: 0 <= c < |f.kids| ==> InMemory(s, f.kids[c], None)
  }

  ghost predicate Branches(s: Scene, f: Family, v: VariantInfo) {
    && Selects(s, f.at.offset, f.at.typeName, v) && |f.kids| == |v.children|
    && forall c :: 0 <= c < |f.kids| ==>
         f.kids[c].at == ChildRef(f.at.offset + v.children[c].offset, v.children[c].typeName)
  }

  ghost predicate AllInMemory(s: Scene, fs: seq<Family>) {
    forall c :: 0 <= c < |fs| ==> InMemory(s, fs[c], None)
  }

  lemma NodeReadable(s: Scene, r: Root, parent: Option<TaskId>)
    ensures NodeOf(s, r, parent).Ok? <==> r.typeName in s.layouts && Readable(s, ChildRef(r.base, r.typeName), r.header)
  {
    hide StateOf, WakeOf, Observed;
    if r.typeName in s.layouts {
      var layout := s.layouts[r.typeName];
      if NodeOf(s, r, parent).Ok? {
        StateIsRead(s, r.base, r.typeName, r.header, StateOf(s, r.base, layout, r.header).value,
                    WakeOf(s, r.base, layout).value);
      }
      if Readable(s, ChildRef(r.base, r.typeName), r.header) {
        var state, wake :| Observed(s, r.base, r.typeName, r.header, state, wake);
        StateIsRead(s, r.base, r.typeName, r.header, state, wake);
      }
    }
  }

  lemma Selected(s: Scene, base: nat, typeName: string) returns (v: VariantInfo)
    requires typeName in s.layouts && FanOut(s, base, s.layouts[typeName]).Ok?
    ensures Selects(s, base, typeName, v)
  {
    SelectsActive(s, base, typeName);
    hide Selects, FromLE;
    v := ActiveVariant(s, base, s.layouts[typeName]).value;
  }

  /** The fan-out is that of the selected variant. */
  lemma FanOutSelected(s: Scene, base: nat, typeName: string, v: VariantInfo)
    requires typeName in s.layouts && Selects(s, base, typeName, v)
    ensures var kids := FanOut(s, base, s.layouts[typeName]);
            && kids.Ok? && |kids.value| == |v.children|
            && forall c :: 0 <= c < |v.children| ==>
                 kids.value[c] == ChildRef(base + v.children[c].offset, v.children[c].typeName)
  {
    SelectsActive(s, base, typeName);
    hide Selects, FromLE;
  }

  lemma FamilyFormed(s: Scene, f: Family, header: Option<nat>, v: VariantInfo)
    requires Readable(s, f.at, header) && Branches(s, f, v) && AllInMemory(s, f.kids)
    ensures InMemory(s, f, header)
  {
  }

  lemma FamilyParts(s: Scene, f: Family, header: Option<nat>) returns (v: VariantInfo)
    requires InMemory(s, f, header)
    ensures Readable(s, f.at, header) && Branches(s, f, v) && AllInMemory(s, f.kids) && f.at.typeName in s.layouts
  {
    v :| Branches(s, f, v);
  }

  ghost predicate Stand(fs: seq<Family>, kids: seq<ChildRef>) {
    |fs| == |kids| && forall c :: 0 <= c < |kids| ==> fs[c].at == kids[c]
  }

  // ---- A walk that succeeds finds a family ---------------------------------------------------

  lemma {:induction false} WalkFindsFamily(s: Scene, r: Root, parent: Option<TaskId>, p: Progress) returns (f: Family)
    requires Expand(s, r, parent, p).Ok?
    ensures f.at == ChildRef(r.base, r.typeName) && InMemory(s, f, r.header)
    ensures |Expand(s, r, parent, p).value.out| == |p.out| + Count(f)
    decreases Room(p), 0
  {
    hide NodeOf, FanOut, Readable, Selects, InMemory;
    NodeReadable(s, r, parent);
    NodeIds(s, r, parent);
    var kids := FanOut(s, r.base, s.layouts[r.typeName]).value;
    var v := Selected(s, r.base, r.typeName);
    FanOutSelected(s, r.base, r.typeName, v);
    var fs := KidsFindFamilies(s, kids, r.id, p.(out := p.out + [NodeOf(s, r, parent).value]));
    f := Family(ChildRef(r.base, r.typeName), fs);
    FamilyFormed(s, f, r.header, v);
  }

  lemma {:induction false} KidsFindFamilies(s: Scene, kids: seq<ChildRef>, parent: TaskId, p: Progress)
      returns (fs: seq<Family>)
    requires ExpandKids(s, kids, parent, p).Ok?
    ensures Stand(fs, kids) && AllInMemory(s, fs)
    ensures |ExpandKids(s, kids, parent, p).value.out| == |p.out| + CountAll(fs)
    decreases Room(p), |kids| + 1
  {
    hide InMemory, Count;
    fs := [];
    if kids != [] {
      hide Expand;
      var child := Root(p.nextId, kids[0].offset, kids[0].typeName, None);
      var p1 := p.(nextId := p.nextId + 1);
      var f := WalkFindsFamily(s, child, Some(parent), p1);
      var rest := KidsFindFamilies(s, kids[1..], parent, Expand(s, child, Some(parent), p1).value);
      fs := [f] + rest;
      assert fs[1..] == rest;
    }
  }

  // ---- A family in memory is walked ------------------------------------------------------------

  lemma {:induction false} FamilyIsWalked(s: Scene, f: Family, r: Root, parent: Option<TaskId>, p: Progress)
    requires f.at == ChildRef(r.base, r.typeName) && InMemory(s, f, r.header) && |p.out| + Count(f) <= 65536
    ensures Expand(s, r, parent, p).Ok? && |Expand(s, r, parent, p).value.out| == |p.out| + Count(f)
    decreases Count(f), 0
  {
    hide NodeOf, FanOut, Readable, Selects, InMemory;
    var v := FamilyParts(s, f, r.header);
    NodeReadable(s, r, parent);
    FanOutSelected(s, r.base, r.typeName, v);
    var kids := FanOut(s, r.base, s.layouts[r.typeName]).value;
    FamiliesAreWalked(s, f.kids, kids, r.id, p.(out := p.out + [NodeOf(s, r, parent).value]));
  }

  lemma TailStands(s: Scene, fs: seq<Family>, kids: seq<ChildRef>)
    requires Stand(fs, kids) && AllInMemory(s, fs)
    ensures |fs| == |kids|
    ensures fs != [] ==> && fs[0].at == kids[0] && InMemory(s, fs[0], None)
                         && Stand(fs[1..], kids[1..]) && AllInMemory(s, fs[1..])
  {
    hide InMemory;
  }

  lemma {:induction false} FamiliesAreWalked(s: Scene, fs: seq<Family>, kids: seq<ChildRef>, parent: TaskId,
                                             p: Progress)
    requires Stand(fs, kids) && AllInMemory(s, fs)
    requires |p.out| + CountAll(fs) <= 65536
    ensures ExpandKids(s, kids, parent, p).Ok?
    ensures |ExpandKids(s, kids, parent, p).value.out| == |p.out| + CountAll(fs)
    decreases CountAll(fs), |fs|
  {
    hide InMemory, Count, Stand, AllInMemory, Expand, ExpandKids;
    KidsUnfold(s, kids, parent, p);
    TailStands(s, fs, kids);
    if kids != [] {
      var child := Root(p.nextId, kids[0].offset, kids[0].typeName, None);
      var p1 := p.(nextId := p.nextId + 1);
      FamilyIsWalked(s, fs[0], child, Some(parent), p1);
      FamiliesAreWalked(s, fs[1..], kids[1..], parent, Expand(s, child, Some(parent), p1).value);
    }
  }

  lemma KidsUnfold(s: Scene, kids: seq<ChildRef>, parent: TaskId, p: Progress)
    ensures kids == [] ==> ExpandKids(s, kids, parent, p) == Ok(p)
    ensures kids != [] ==>
              var child := Root(p.nextId, kids[0].offset, kids[0].typeName, None);
              var first := Expand(s, child, Some(parent), p.(nextId := p.nextId + 1));
              first.Ok? ==> ExpandKids(s, kids, parent, p) == ExpandKids(s, kids[1..], parent, first.value)
  {
    hide Expand;
  }

  // ---- All roots -----------------------------------------------------------------------------------

  /** One family in memory for each root. */
  ghost predicate Rooted(s: Scene, roots: seq<Root>, fs: seq<Family>) {
    && |fs| == |roots|
    && forall k :: 0 <= k < |roots| ==>
         fs[k].at == ChildRef(roots[k].base, roots[k].typeName) && InMemory(s, fs[k], roots[k].header)
  }

  lemma {:induction false} RootsFindFamilies(s: Scene, roots: seq<Root>, p: Progress) returns (fs: seq<Family>)
    requires ExpandRoots(s, roots, p).Ok?
    ensures Rooted(s, roots, fs) && |ExpandRoots(s, roots, p).value.out| == |p.out| + CountAll(fs)
    decreases |roots|
  {
    hide InMemory, Count;
    fs := [];
    if roots != [] {
      hide Expand;
      var f := WalkFindsFamily(s, roots[0], None, p);
      var rest := RootsFindFamilies(s, roots[1..], Expand(s, roots[0], None, p).value);
      fs := [f] + rest;
      assert fs[1..] == rest;
    }
  }

  lemma {:induction false} RootedIsWalked(s: Scene, roots: seq<Root>, fs: seq<Family>, p: Progress)
    requires Rooted(s, roots, fs) && |p.out| + CountAll(fs) <= 65536
    ensures ExpandRoots(s, roots, p).Ok? && |ExpandRoots(s, roots, p).value.out| == |p.out| + CountAll(fs)
    decreases |roots|
  {
    hide InMemory, Count;
    if roots != [] {
      hide Expand;
      FamilyIsWalked(s, fs[0], roots[0], None, p);
      RootedIsWalked(s, roots[1..], fs[1..], Expand(s, roots[0], None, p).value);
    }
  }

  ghost predicate Finite(s: Scene, roots: seq<Root>, total: nat) {
    exists fs :: Rooted(s, roots, fs) && CountAll(fs) == total
  }

  /** The walk succeeds exactly when memory holds a finite family of readable coroutines under
      every root, of at most 65536 in all; it then has one node for each of them. */
  lemma WalkSucceedsExactly(s: Scene, roots: seq<Root>, total: nat)
    ensures Enumerate(s, roots).Ok? && |Enumerate(s, roots).value| == total
       <==> total <= 65536 && Finite(s, roots, total)
  {
    hide ExpandRoots, InMemory, CountAll;
    var p := Progress(FirstFresh(roots), []);
    if Enumerate(s, roots).Ok? {
      var fs := RootsFindFamilies(s, roots, p);
      RootsBounded(s, roots, p);
    }
    if total <= 65536 && Finite(s, roots, total) {
      var fs :| Rooted(s, roots, fs) && CountAll(fs) == total;
      RootedIsWalked(s, roots, fs, p);
    }
  }

  lemma RootsBounded(s: Scene, roots: seq<Root>, p: Progress)
    requires ExpandRoots(s, roots, p).Ok? && |p.out| <= 65536
    ensures |ExpandRoots(s, roots, p).value.out| <= 65536
  {
  }
}
