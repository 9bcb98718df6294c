/** What the bounded listing contains. */
module ListTreeLaws {
  import opened Sorting
  import opened Wrappers
  import opened Tree
  import opened TreeOrder
  import opened TreeWalk

  // ------------------------------------------------------------- the limit

  /** The entries listed before the first directory that cannot be read. */
  function Before(events: seq<Event>): seq<Entry> {
    if events == [] || events[0].Fail? then [] else [events[0].entry] + Before(events[1..])
  }

  predicate Clean(events: seq<Event>) {
    Fail !in events
  }

  /**
   The limit takes the first `limit` entries and hides a later failure; short of
   the limit a failure wins. `truncated` means "at least `limit`", so it is also
   set when the tree has exactly `limit` entries and nothing is missing.
   */
  lemma {:induction false} CutExact(limit: nat, entries: seq<Entry>, events: seq<Event>)
    requires |entries| < limit
    ensures var found := entries + Before(events);
      Cut(limit, entries, events) ==
        if |found| >= limit then Ok(Listing(found[..limit], true))
        else if Clean(events) then Ok(Listing(found, false))
        else Err(Io)
    decreases |events|
  {
    assert entries + [] == entries;
    if events != [] {
      assert events == [events[0]] + events[1..];
      if events[0].Emit? {
        var next := entries + [events[0].entry];
        assert entries + Before(events) == next + Before(events[1..]);
        if |next| < limit {
          CutExact(limit, next, events[1..]);
        }
      }
    }
  }

  /** A clean walk: the listing is a prefix, and `truncated` iff the tree has at least `limit` entries. */
  lemma ListedExact(fold: Fold, base: Node, depth: nat, limit: nat)
    requires base.Dir? && limit > 0
    ensures var walk := Walk(fold, depth, Frame([], base, 0)); var all := Before(walk);
      var result := Listed(fold, Some(base), depth, limit);
      && (result.Ok? <==> |all| >= limit || Clean(walk))
      && (result.Ok? ==> result.value.entries == all[..if |all| < limit then |all| else limit])
      && (result.Ok? ==> (result.value.truncated <==> |all| >= limit))
      && (Clean(walk) ==> forall e :: e in all <==> Emit(e) in walk)
  {
    var walk := Walk(fold, depth, Frame([], base, 0));
    CutExact(limit, [], walk);
    assert [] + Before(walk) == Before(walk);
    if Clean(walk) {
      BeforeAll(walk);
    }
  }

  lemma {:induction false} BeforeAll(events: seq<Event>)
    requires Clean(events)
    ensures |Before(events)| == |events|
    ensures forall e :: e in Before(events) <==> Emit(e) in events
  {
    if events != [] {
      assert events == [events[0]] + events[1..];
      BeforeAll(events[1..]);
    }
  }

  // ---------------------------------------------------- what the walk lists

  /** The entry lies below the frame, within the depth, along visible readable directories. */
  predicate Lists(depth: nat, frame: Frame, e: Entry) {
    && |frame.path| < |e.path| && frame.path <= e.path
    && frame.level + |e.path| - |frame.path| <= depth
    && var node := Resolve(frame.dir, e.path[|frame.path|..]);
       node.Some? && e.isDir == node.value.Dir? && e.size == if node.value.Dir? then 0 else node.value.size
  }

  lemma {:induction false} EmitsElements(path: Path, kids: seq<Child>, e: Entry)
    ensures Emit(e) in Emits(path, kids) <==> exists c :: c in kids && Visible(c) && e == EntryOf(path, c)
    ensures Fail !in Emits(path, kids)
  {
    if kids != [] {
      EmitsElements(path, kids[1..], e);
      assert kids == [kids[0]] + kids[1..];
    }
  }

  lemma {:induction false} PopsElements(fold: Fold, depth: nat, parent: Node, frames: seq<Frame>, event: Event)
    requires forall f :: f in frames ==> f.dir < parent
    ensures event in Pops(fold, depth, parent, frames) <==> exists f :: f in frames && event in Walk(fold, depth, f)
  {
    hide Walk;
    if frames != [] {
      var last := |frames| - 1;
      PopsElements(fold, depth, parent, frames[..last], event);
      assert frames == frames[..last] + [frames[last]];
      assert event in Walk(fold, depth, frames[last]) ==> frames[last] in frames;
      assert forall f :: f in frames <==> f == frames[last] || f in frames[..last];
    }
  }

  /** The sub-frame an entry below `frame` would be listed from. */
  lemma ListsBelow(depth: nat, frame: Frame, e: Entry, c: Child)
    requires UniqueNames(frame.dir) && frame.dir.Dir? && frame.dir.readable
    requires c in frame.dir.children && Visible(c)
    requires frame.path + [c.name] <= e.path
    ensures |e.path| > |frame.path| + 1 ==>
      (Lists(depth, frame, e) <==> Lists(depth, Frame(frame.path + [c.name], c.node, frame.level + 1), e))
    ensures |e.path| == |frame.path| + 1 ==>
      (Lists(depth, frame, e) <==> frame.level < depth && e == EntryOf(frame.path, c))
  {
    var rel := e.path[|frame.path|..];
    NamedUnique(frame.dir, c.name, c);
    assert rel[0] == c.name;
    assert rel[1..] == e.path[|frame.path| + 1..];
    assert Resolve(frame.dir, rel) == Resolve(c.node, rel[1..]);
    assert |e.path| == |frame.path| + 1 ==> e.path == frame.path + [c.name];
  }

  /** The child an entry below `frame` passes through. */
  lemma ListsThrough(depth: nat, frame: Frame, e: Entry) returns (c: Child)
    requires Lists(depth, frame, e)
    ensures frame.dir.Dir? && frame.dir.readable && frame.level < depth
    ensures c in frame.dir.children && Visible(c) && frame.path + [c.name] <= e.path
    ensures |e.path| > |frame.path| + 1 ==> c.node.Dir?
  {
    var rel := e.path[|frame.path|..];
    var hits := Named(frame.dir.children, rel[0]);
    c := hits[0];
    assert c in hits;
    assert e.path == frame.path + rel;
    assert rel[..1] == [c.name];
    assert Resolve(frame.dir, rel) == Resolve(c.node, rel[1..]);
    if |rel| > 1 {
      assert rel[1..] != [];
      assert Resolve(c.node, rel[1..]).Some?;
    }
  }

  /** The walk lists exactly the visible entries within the depth. */
  lemma {:induction false} WalkLists(fold: Fold, depth: nat, frame: Frame, e: Entry)
    requires UniqueNames(frame.dir)
    ensures Emit(e) in Walk(fold, depth, frame) <==> Lists(depth, frame, e)
    decreases frame.dir
  {
    if frame.level < depth && frame.dir.Dir? && frame.dir.readable {
      WalkListsOpen(fold, depth, frame, e);
    } else if Lists(depth, frame, e) {
      var _ := ListsThrough(depth, frame, e);
    }
  }

  lemma {:induction false} WalkListsOpen(fold: Fold, depth: nat, frame: Frame, e: Entry)
    requires UniqueNames(frame.dir)
    requires frame.level < depth && frame.dir.Dir? && frame.dir.readable
    ensures Emit(e) in Walk(fold, depth, frame) <==> Lists(depth, frame, e)
    decreases frame.dir, 0
  {
    hide Walk, Emits, Subs, Sort, Lists, Pops;
    var kids := Sort(Folded(fold), frame.dir.children);
    var subs := Subs(frame.path, kids, frame.level + 1);
    SortElements(Folded(fold), frame.dir.children);
    SubsBelow(fold, frame.path, frame.dir, frame.level + 1);
    WalkOpens(fold, depth, frame, kids);
    EmitsElements(frame.path, kids, e);
    PopsElements(fold, depth, frame.dir, subs, Emit(e));
    SubsElements(frame.path, kids, frame.level + 1);
    forall f | f in subs ensures Emit(e) in Walk(fold, depth, f) <==> Lists(depth, f, e) {
      var c :| c in kids && SubOf(frame.path, frame.level + 1, c, f);
      WalkLists(fold, depth, f, e);
    }
    if Emit(e) in Emits(frame.path, kids) {
      var c :| c in kids && Visible(c) && e == EntryOf(frame.path, c);
      ListsBelow(depth, frame, e, c);
    }
    if Emit(e) in Pops(fold, depth, frame.dir, subs) {
      var f :| f in subs && Lists(depth, f, e);
      var c :| c in kids && SubOf(frame.path, frame.level + 1, c, f);
      ListsLonger(depth, f, e);
      ListsBelow(depth, frame, e, c);
    }
    if Lists(depth, frame, e) {
      ListsLonger(depth, frame, e);
      var c := ListsThrough(depth, frame, e);
      ListsBelow(depth, frame, e, c);
      if |e.path| > |frame.path| + 1 {
        assert SubOf(frame.path, frame.level + 1, c, Frame(frame.path + [c.name], c.node, frame.level + 1));
      }
    }
  }

  lemma ListsLonger(depth: nat, frame: Frame, e: Entry)
    requires Lists(depth, frame, e)
    ensures |e.path| > |frame.path| && frame.path <= e.path
  {
  }

  // ------------------------------------------------------- in order, and once

  ghost predicate Ordered(fold: Fold, events: seq<Event>) {
    forall i, j :: 0 <= i < j < |events| && events[i].Emit? && events[j].Emit? ==>
      Precedes(fold, events[i].entry.path, events[j].entry.path)
  }

  lemma OrderedConcat(fold: Fold, a: seq<Event>, b: seq<Event>)
    requires Ordered(fold, a) && Ordered(fold, b)
    requires forall d, e :: Emit(d) in a && Emit(e) in b ==> Precedes(fold, d.path, e.path)
    ensures Ordered(fold, a + b)
  {
    hide Precedes;
    forall i, j | 0 <= i < j < |a + b| && (a + b)[i].Emit? && (a + b)[j].Emit?
      ensures Precedes(fold, (a + b)[i].entry.path, (a + b)[j].entry.path)
    {
      if i < |a| <= j {
        assert Emit(a[i].entry) in a && Emit(b[j - |a|].entry) in b;
      }
    }
  }

  lemma {:induction false} EmitsOrdered(fold: Fold, path: Path, kids: seq<Child>)
    requires NamesRise(fold, kids)
    ensures Ordered(fold, Emits(path, kids))
  {
    hide Precedes, NameBefore;
    if kids != [] {
      var rest := Emits(path, kids[1..]);
      EmitsOrdered(fold, path, kids[1..]);
      if Visible(kids[0]) {
        var first := [Emit(EntryOf(path, kids[0]))];
        forall d, e | Emit(d) in first && Emit(e) in rest ensures Precedes(fold, d.path, e.path) {
          EmitsElements(path, kids[1..], e);
          var c :| c in kids[1..] && Visible(c) && e == EntryOf(path, c);
          SiblingsPrecede(fold, path, kids[0].name, c.name);
        }
        OrderedConcat(fold, first, rest);
      }
    }
  }

  lemma {:induction false} PopsOrdered(fold: Fold, depth: nat, parent: Node, path: Path, frames: seq<Frame>)
    requires forall f :: f in frames ==> f.dir < parent && UniqueNames(f.dir)
    requires FramesRise(fold, path, frames)
    ensures Ordered(fold, Pops(fold, depth, parent, frames))
    decreases parent, 0, |frames|
  {
    hide Walk, Lists, Precedes, NameBefore, Ordered;
    if frames == [] {
      NoneOrdered(fold);
    } else {
      var last := |frames| - 1;
      var rest := frames[..last];
      PopsOrdered(fold, depth, parent, path, rest);
      WalkOrdered(fold, depth, frames[last]);
      forall d, e | Emit(d) in Walk(fold, depth, frames[last]) && Emit(e) in Pops(fold, depth, parent, rest)
        ensures Precedes(fold, d.path, e.path)
      {
        PopsElements(fold, depth, parent, rest, Emit(e));
        var f :| f in rest && Emit(e) in Walk(fold, depth, f);
        WalkLists(fold, depth, frames[last], d);
        WalkLists(fold, depth, f, e);
        ListsLonger(depth, frames[last], d);
        ListsLonger(depth, f, e);
        assert SubdirectoryOf(path, f) && SubdirectoryOf(path, frames[last]);
        LaterFirst(fold, path, d.path, e.path);
      }
      OrderedConcat(fold, Walk(fold, depth, frames[last]), Pops(fold, depth, parent, rest));
    }
  }

  lemma NoneOrdered(fold: Fold)
    ensures Ordered(fold, [])
  {
  }

  /** The walk comes across paths in their order. */
  lemma {:induction false} WalkOrdered(fold: Fold, depth: nat, frame: Frame)
    requires UniqueNames(frame.dir)
    ensures Ordered(fold, Walk(fold, depth, frame))
    decreases frame.dir, 1
  {
    if frame.level < depth && frame.dir.Dir? && frame.dir.readable {
      WalkOrderedOpen(fold, depth, frame);
    }
  }

  lemma {:induction false} WalkOrderedOpen(fold: Fold, depth: nat, frame: Frame)
    requires UniqueNames(frame.dir)
    requires frame.level < depth && frame.dir.Dir? && frame.dir.readable
    ensures Ordered(fold, Walk(fold, depth, frame))
    decreases frame.dir, 0
  {
    hide Walk, Emits, Subs, Sort, Lists, Pops, NameBefore, Precedes, Ordered;
    var level := frame.level + 1;
    var kids := Sort(Folded(fold), frame.dir.children);
    var subs := Subs(frame.path, kids, level);
    SortElements(Folded(fold), frame.dir.children);
    FoldedRise(fold, frame.dir.children);
    SubsBelow(fold, frame.path, frame.dir, level);
    WalkOpens(fold, depth, frame, kids);
    EmitsOrdered(fold, frame.path, kids);
    SubsRise(fold, frame.path, kids, level);
    SubsElements(frame.path, kids, level);
    forall f | f in subs ensures UniqueNames(f.dir) {
      var c :| c in kids && SubOf(frame.path, level, c, f);
    }
    PopsOrdered(fold, depth, frame.dir, frame.path, subs);
    forall d, e | Emit(d) in Emits(frame.path, kids) && Emit(e) in Pops(fold, depth, frame.dir, subs)
      ensures Precedes(fold, d.path, e.path)
    {
      EmitsElements(frame.path, kids, d);
      var c :| c in kids && Visible(c) && d == EntryOf(frame.path, c);
      PopsElements(fold, depth, frame.dir, subs, Emit(e));
      var f :| f in subs && Emit(e) in Walk(fold, depth, f);
      WalkLists(fold, depth, f, e);
      ListsLonger(depth, f, e);
      OwnFirst(fold, frame.path, c.name, e.path);
    }
    OrderedConcat(fold, Emits(frame.path, kids), Pops(fold, depth, frame.dir, subs));
  }

  ghost predicate DistinctPaths(events: seq<Event>) {
    forall i, j :: 0 <= i < j < |events| && events[i].Emit? && events[j].Emit? ==>
      events[i].entry.path != events[j].entry.path
  }

  /** No path is listed twice. */
  lemma WalkDistinct(fold: Fold, depth: nat, frame: Frame)
    requires UniqueNames(frame.dir)
    ensures DistinctPaths(Walk(fold, depth, frame))
  {
    hide Walk, Precedes;
    var walk := Walk(fold, depth, frame);
    WalkOrdered(fold, depth, frame);
    forall i, j | 0 <= i < j < |walk| && walk[i].Emit? && walk[j].Emit? ensures walk[i].entry.path != walk[j].entry.path {
      PrecedesDistinct(fold, walk[i].entry.path, walk[j].entry.path);
    }
  }

  // ------------------------------------------------- the enumeration order

  lemma {:induction false} EmitsSame(path: Path, a: seq<Child>, b: seq<Child>)
    requires Paired(a, b)
    ensures Emits(path, a) == Emits(path, b)
  {
    if a != [] {
      assert Twins(a[0], b[0]);
      PairedRest(a, b);
      EmitsSame(path, a[1..], b[1..]);
    }
  }

  /** The walk of a tree does not show in which order the system enumerates any of its directories. */
  lemma {:induction false} WalkIgnoresReadDirOrder(fold: Fold, depth: nat, path: Path, a: Node, b: Node, level: nat)
    requires UniqueNames(a) && UniqueNames(b) && Reordered(a, b)
    ensures Walk(fold, depth, Frame(path, a, level)) == Walk(fold, depth, Frame(path, b, level))
    decreases a, 1
  {
    if a.Dir? && level < depth && a.readable {
      OpenIgnoresReadDirOrder(fold, depth, path, a, b, level);
    }
  }

  lemma {:induction false} OpenIgnoresReadDirOrder(fold: Fold, depth: nat, path: Path, a: Node, b: Node, level: nat)
    requires UniqueNames(a) && UniqueNames(b) && Reordered(a, b) && a.Dir? && level < depth && a.readable
    ensures Walk(fold, depth, Frame(path, a, level)) == Walk(fold, depth, Frame(path, b, level))
    decreases a, 0
  {
    hide Sort, Walk, Emits, Subs, Pops, Reordered, UniqueNames, PairedFrames;
    ReorderedMatched(a, b);
    ChildrenDistinct(a);
    ChildrenDistinct(b);
    var x, y := Sort(Folded(fold), a.children), Sort(Folded(fold), b.children);
    FoldedByName(fold);
    SortedPaired(Folded(fold), a.children, b.children);
    var subsX, subsY := Subs(path, x, level + 1), Subs(path, y, level + 1);
    SubsBelow(fold, path, a, level + 1);
    SubsBelow(fold, path, b, level + 1);
    SortElements(Folded(fold), a.children);
    SortElements(Folded(fold), b.children);
    ChildrenUnique(a, x);
    ChildrenUnique(b, y);
    EmitsSame(path, x, y);
    SubsPaired(path, x, y, level + 1);
    WalkOpens(fold, depth, Frame(path, a, level), x);
    WalkOpens(fold, depth, Frame(path, b, level), y);
    PopsSame(fold, depth, a, b, subsX, subsY);
  }

  lemma {:induction false} PopsSame(fold: Fold, depth: nat, p: Node, q: Node, x: seq<Frame>, y: seq<Frame>)
    requires forall f :: f in x ==> f.dir < p
    requires forall f :: f in y ==> f.dir < q
    requires PairedFrames(x, y)
    ensures Pops(fold, depth, p, x) == Pops(fold, depth, q, y)
    decreases p, 0, |x|
  {
    hide Walk, Reordered, UniqueNames;
    if x != [] {
      var last := |x| - 1;
      PopsSame(fold, depth, p, q, x[..last], y[..last]);
      assert TwinFrames(x[last], y[last]) && x[last] in x;
      WalkIgnoresReadDirOrder(fold, depth, x[last].path, x[last].dir, y[last].dir, x[last].level);
    }
  }

  lemma {:induction false} BeforePrefix(events: seq<Event>)
    ensures |Before(events)| <= |events|
    ensures forall i :: 0 <= i < |Before(events)| ==> events[i] == Emit(Before(events)[i])
  {
    if events != [] && events[0].Emit? {
      BeforePrefix(events[1..]);
    }
  }

  /** Every returned entry belongs to the listing, once; an untruncated listing misses none. */
  lemma ListingComplete(fold: Fold, base: Node, depth: nat, limit: nat, e: Entry)
    requires base.Dir? && UniqueNames(base) && limit > 0
    requires Listed(fold, Some(base), depth, limit).Ok?
    ensures var r := Listed(fold, Some(base), depth, limit).value; var frame := Frame([], base, 0);
      && (e in r.entries ==> Lists(depth, frame, e))
      && (!r.truncated && Lists(depth, frame, e) ==> e in r.entries)
      && forall i, j :: 0 <= i < j < |r.entries| ==> r.entries[i].path != r.entries[j].path
  {
    hide Walk, Lists, Cut;
    var frame := Frame([], base, 0);
    var walk := Walk(fold, depth, frame);
    ListedExact(fold, base, depth, limit);
    WalkLists(fold, depth, frame, e);
    WalkDistinct(fold, depth, frame);
    BeforePrefix(walk);
    assert e in Before(walk) ==> Emit(e) in walk;
  }

  // ---------------------------------------------------------- when it fails

  /** A directory in the way that cannot be read, with that many levels to look at. */
  ghost predicate Blocks(dir: Node, levels: int, path: Path) {
    |path| < levels && var node := Resolve(dir, path); node.Some? && node.value.Dir? && !node.value.readable
  }

  lemma BlocksBelow(dir: Node, levels: int, c: Child, path: Path)
    requires UniqueNames(dir) && dir.Dir? && dir.readable && c in dir.children && Visible(c)
    ensures Blocks(dir, levels, [c.name] + path) <==> Blocks(c.node, levels - 1, path)
  {
    NamedUnique(dir, c.name, c);
    assert ([c.name] + path)[1..] == path;
  }

  lemma {:induction false} FailsFrom(fold: Fold, depth: nat, frame: Frame) returns (path: Path)
    requires UniqueNames(frame.dir) && frame.dir.Dir?
    requires Fail in Walk(fold, depth, frame)
    ensures Blocks(frame.dir, depth - frame.level, path)
    decreases frame.dir
  {
    hide Emits, Subs, Sort, Pops;
    path := [];
    if frame.level < depth && frame.dir.readable {
      hide Walk, Blocks;
      var level := frame.level + 1;
      var kids := Sort(Folded(fold), frame.dir.children);
      var subs := Subs(frame.path, kids, level);
      SortElements(Folded(fold), frame.dir.children);
      SubsBelow(fold, frame.path, frame.dir, level);
      WalkOpens(fold, depth, frame, kids);
      EmitsElements(frame.path, kids, Entry([], false, 0));
      PopsElements(fold, depth, frame.dir, subs, Fail);
      SubsElements(frame.path, kids, level);
      var f :| f in subs && Fail in Walk(fold, depth, f);
      var c :| c in kids && SubOf(frame.path, level, c, f);
      var rest := FailsFrom(fold, depth, f);
      BlocksBelow(frame.dir, depth - frame.level, c, rest);
      path := [c.name] + rest;
    }
  }

  lemma {:induction false} FailsAt(fold: Fold, depth: nat, frame: Frame, path: Path)
    requires UniqueNames(frame.dir) && frame.dir.Dir?
    requires Blocks(frame.dir, depth - frame.level, path)
    ensures Fail in Walk(fold, depth, frame)
    decreases path
  {
    hide Emits, Subs, Sort, Pops;
    if path != [] {
      var level := frame.level + 1;
      var kids := Sort(Folded(fold), frame.dir.children);
      var subs := Subs(frame.path, kids, level);
      var hits := Named(frame.dir.children, path[0]);
      var c := hits[0];
      assert c in hits;
      assert path == [c.name] + path[1..];
      BlocksBelow(frame.dir, depth - frame.level, c, path[1..]);
      BlockedDir(c.node, depth - level, path[1..]);
      hide Walk, Blocks;
      SortElements(Folded(fold), frame.dir.children);
      SubsBelow(fold, frame.path, frame.dir, level);
      WalkOpens(fold, depth, frame, kids);
      PopsElements(fold, depth, frame.dir, subs, Fail);
      SubsElements(frame.path, kids, level);
      var f := Frame(frame.path + [c.name], c.node, level);
      assert SubOf(frame.path, level, c, f);
      FailsAt(fold, depth, f, path[1..]);
    }
  }

  lemma BlockedDir(dir: Node, levels: int, path: Path)
    requires Blocks(dir, levels, path)
    ensures dir.Dir?
  {
  }

  // -------------------------------------------- what a caller may rely on

  /** There is such an entry, no deeper than asked. */
  ghost predicate IsEntry(base: Node, depth: nat, e: Entry) {
    1 <= |e.path| <= depth && exists node :: Leads(base, e.path, node) && Shows(e, node)
  }

  predicate Shows(e: Entry, node: Node) {
    e.isDir == node.Dir? && e.size == if node.Dir? then 0 else node.size
  }

  /** The directory cannot be read, and would have to be. */
  ghost predicate Obstructs(base: Node, depth: nat, path: Path) {
    |path| < depth && exists node :: Leads(base, path, node) && node.Dir? && !node.readable
  }

  /** Entries in their order; what is missing comes later, and is only missing when truncated. */
  ghost predicate FirstEntries(fold: Fold, base: Node, depth: nat, r: Listing) {
    && (forall e :: e in r.entries ==> IsEntry(base, depth, e))
    && (forall i, j :: 0 <= i < j < |r.entries| ==> Precedes(fold, r.entries[i].path, r.entries[j].path))
    && forall d, e :: e !in r.entries && IsEntry(base, depth, e) ==> r.truncated && (d in r.entries ==> Precedes(fold, d.path, e.path))
  }

  lemma IsEntryIff(base: Node, depth: nat, e: Entry)
    requires UniqueNames(base)
    ensures IsEntry(base, depth, e) <==> Lists(depth, Frame([], base, 0), e)
  {
    hide Leads, Resolve, UniqueNames;
    assert e.path[0..] == e.path;
    if Resolve(base, e.path).Some? {
      LeadsIff(base, e.path, Resolve(base, e.path).value);
    }
    forall node | Leads(base, e.path, node) ensures Resolve(base, e.path) == Some(node) {
      LeadsIff(base, e.path, node);
    }
  }

  lemma ObstructsIff(base: Node, depth: nat, path: Path)
    requires UniqueNames(base)
    ensures Obstructs(base, depth, path) <==> Blocks(base, depth, path)
  {
    hide Leads, Resolve, UniqueNames;
    if Resolve(base, path).Some? {
      LeadsIff(base, path, Resolve(base, path).value);
    }
    forall node | Leads(base, path, node) ensures Resolve(base, path) == Some(node) {
      LeadsIff(base, path, node);
    }
  }

  /** A listing holds the first entries there are. */
  lemma ListingFirst(fold: Fold, base: Node, depth: nat, limit: nat)
    requires base.Dir? && UniqueNames(base) && limit > 0
    requires Listed(fold, Some(base), depth, limit).Ok?
    ensures FirstEntries(fold, base, depth, Listed(fold, Some(base), depth, limit).value)
  {
    hide Walk, Lists, Cut, Precedes, IsEntry, UniqueNames;
    var frame := Frame([], base, 0);
    var walk := Walk(fold, depth, frame);
    var r := Listed(fold, Some(base), depth, limit).value;
    ListedExact(fold, base, depth, limit);
    WalkOrdered(fold, depth, frame);
    BeforePrefix(walk);
    forall e ensures IsEntry(base, depth, e) <==> Emit(e) in walk {
      IsEntryIff(base, depth, e);
      WalkLists(fold, depth, frame, e);
    }
    forall d, e | e !in r.entries && IsEntry(base, depth, e) ensures r.truncated && (d in r.entries ==> Precedes(fold, d.path, e.path)) {
      var k :| 0 <= k < |walk| && walk[k] == Emit(e);
      if d in r.entries {
        var i :| 0 <= i < |r.entries| && r.entries[i] == d;
        assert walk[i] == Emit(d);
      }
    }
  }

  /** An untruncated listing has no unreadable directory in its way, a failed one has. */
  lemma ListingFails(fold: Fold, base: Node, depth: nat, limit: nat)
    requires base.Dir? && UniqueNames(base) && limit > 0
    ensures var result := Listed(fold, Some(base), depth, limit);
      && (result.Ok? && !result.value.truncated ==> forall path :: !Obstructs(base, depth, path))
      && (result.Err? ==> result == Err(Io) && exists path :: Obstructs(base, depth, path))
  {
    hide Walk, Cut, Obstructs, Blocks, UniqueNames, Before;
    var frame := Frame([], base, 0);
    var walk := Walk(fold, depth, frame);
    CutExact(limit, [], walk);
    if Fail in walk {
      var path := FailsFrom(fold, depth, frame);
      ObstructsIff(base, depth, path);
    }
    forall path | Obstructs(base, depth, path) ensures Fail in walk {
      ObstructsIff(base, depth, path);
      FailsAt(fold, depth, frame, path);
    }
    ListedExact(fold, base, depth, limit);
  }
}
