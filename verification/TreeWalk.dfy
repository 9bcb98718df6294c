/**
 The bounded recursive listing: a stack of directories, a depth, an entry limit.
 `Walk` is the listing without the limit, as a sequence of events; `Cut` is what
 the limit leaves of it; `ListChildren` is the program's loop over one directory.
 */
module TreeWalk {
  import opened Sorting
  import opened Wrappers
  import opened Tree

  datatype Entry = Entry(path: Path, isDir: bool, size: nat)

  /** An entry is listed, or a directory cannot be read. */
  datatype Event = Emit(entry: Entry) | Fail

  datatype FsError = NotFound | NotDirectory | Io

  datatype Listing = Listing(entries: seq<Entry>, truncated: bool)

  type Fold = string -> string

  function EntryOf(path: Path, c: Child): Entry {
    Entry(path + [c.name], c.node.Dir?, if c.node.Dir? then 0 else c.node.size)
  }

  function Emits(path: Path, kids: seq<Child>): seq<Event> {
    if kids == [] then []
    else if Visible(kids[0]) then [Emit(EntryOf(path, kids[0]))] + Emits(path, kids[1..])
    else Emits(path, kids[1..])
  }

  lemma SubsBelow(fold: Fold, path: Path, dir: Node, level: nat)
    requires dir.Dir?
    ensures forall f :: f in Subs(path, Sort(Folded(fold), dir.children), level) ==> f.dir < dir
  {
    var kids := Sort(Folded(fold), dir.children);
    SortElements(Folded(fold), dir.children);
    SubsElements(path, kids, level);
    forall f | f in Subs(path, kids, level) ensures f.dir < dir {
      var c :| c in kids && SubOf(path, level, c, f);
    }
  }

  /** One directory of the walk and everything it leaves on the stack. */
  function Walk(fold: Fold, depth: nat, frame: Frame): seq<Event>
    decreases frame.dir, 1
  {
    if frame.level >= depth then []
    else if !frame.dir.Dir? || !frame.dir.readable then [Fail]
    else
      var kids := Sort(Folded(fold), frame.dir.children);
      SubsBelow(fold, frame.path, frame.dir, frame.level + 1);
      Emits(frame.path, kids) + Pops(fold, depth, frame.dir, Subs(frame.path, kids, frame.level + 1))
  }

  /** Frames are popped last to first. */
  function Pops(fold: Fold, depth: nat, ghost parent: Node, frames: seq<Frame>): seq<Event>
    requires forall f :: f in frames ==> f.dir < parent
    decreases parent, 0, |frames|
  {
    if frames == [] then []
    else
      var last := |frames| - 1;
      Walk(fold, depth, frames[last]) + Pops(fold, depth, parent, frames[..last])
  }

  function Trace(fold: Fold, depth: nat, stack: seq<Frame>): seq<Event> {
    if stack == [] then []
    else Walk(fold, depth, stack[|stack| - 1]) + Trace(fold, depth, stack[..|stack| - 1])
  }

  lemma {:induction false} TracePush(fold: Fold, depth: nat, parent: Node, stack: seq<Frame>, frames: seq<Frame>)
    requires forall f :: f in frames ==> f.dir < parent
    ensures Trace(fold, depth, stack + frames) == Pops(fold, depth, parent, frames) + Trace(fold, depth, stack)
  {
    hide Walk;
    if frames == [] {
      assert stack + frames == stack;
    } else {
      var last := |frames| - 1;
      assert (stack + frames)[..|stack + frames| - 1] == stack + frames[..last];
      TracePush(fold, depth, parent, stack, frames[..last]);
    }
  }

  /** The result of a walk stopped by the limit, with `entries` already listed. */
  function Cut(limit: nat, entries: seq<Entry>, events: seq<Event>): Result<Listing, FsError>
    decreases |events|
  {
    if events == [] then Ok(Listing(entries, false))
    else if events[0].Fail? then Err(Io)
    else if |entries| + 1 >= limit then Ok(Listing(entries + [events[0].entry], true))
    else Cut(limit, entries + [events[0].entry], events[1..])
  }

  // -------------------------------------------------------------- the program

  lemma CutEnd(fold: Fold, depth: nat, limit: nat, entries: seq<Entry>)
    ensures Cut(limit, entries, Trace(fold, depth, [])) == Ok(Listing(entries, false))
  {
  }

  /** Popping a frame too deep, or one that cannot be read, or any other. */
  lemma TracePop(fold: Fold, depth: nat, stack: seq<Frame>, limit: nat, entries: seq<Entry>)
    requires stack != []
    ensures var frame, rest := stack[|stack| - 1], stack[..|stack| - 1];
      var all := Trace(fold, depth, stack);
      && all == Walk(fold, depth, frame) + Trace(fold, depth, rest)
      && (frame.level >= depth ==> all == Trace(fold, depth, rest))
      && (frame.level < depth && (!frame.dir.Dir? || !frame.dir.readable) ==> Cut(limit, entries, all) == Err(Io))
  {
    hide Sort, Emits, Subs, Pops, Folded;
  }

  /** What is left to list once a directory's own children are done. */
  lemma StepTrace(fold: Fold, depth: nat, frame: Frame, children: seq<Child>, rest: seq<Frame>)
    returns (after: seq<Event>)
    requires frame.level < depth && frame.dir.Dir? && frame.dir.readable
    requires children == Sort(Folded(fold), frame.dir.children)
    ensures Walk(fold, depth, frame) + Trace(fold, depth, rest) == Emits(frame.path, children) + after
    ensures after == Trace(fold, depth, rest + Subs(frame.path, children, frame.level + 1))
  {
    hide Walk, Pops, Trace, Emits, Sort, Subs;
    SubsBelow(fold, frame.path, frame.dir, frame.level + 1);
    WalkOpens(fold, depth, frame, children);
    var subs := Subs(frame.path, children, frame.level + 1);
    TracePush(fold, depth, frame.dir, rest, subs);
    after := Trace(fold, depth, rest + subs);
    var own, pops, below := Emits(frame.path, children), Pops(fold, depth, frame.dir, subs), Trace(fold, depth, rest);
    assert (own + pops) + below == own + (pops + below);
  }

  lemma WalkOpens(fold: Fold, depth: nat, frame: Frame, children: seq<Child>)
    requires frame.level < depth && frame.dir.Dir? && frame.dir.readable
    requires children == Sort(Folded(fold), frame.dir.children)
    requires forall f :: f in Subs(frame.path, children, frame.level + 1) ==> f.dir < frame.dir
    ensures Walk(fold, depth, frame) ==
            Emits(frame.path, children) + Pops(fold, depth, frame.dir, Subs(frame.path, children, frame.level + 1))
  {
    hide Sort, Emits, Subs, Pops, Folded;
  }

  lemma TraceOne(fold: Fold, depth: nat, frame: Frame)
    ensures Trace(fold, depth, [frame]) == Walk(fold, depth, frame)
  {
    assert [frame][..0] == [];
    assert Trace(fold, depth, []) == [];
  }

  /** The loop over one directory's sorted children. */
  method ListChildren(frame: Frame, children: seq<Child>, limit: nat, listed: seq<Entry>, rest: seq<Frame>, ghost after: seq<Event>)
    returns (entries: seq<Entry>, stack: seq<Frame>, truncated: bool)
    requires |listed| < limit
    ensures Cut(limit, listed, Emits(frame.path, children) + after) ==
            if truncated then Ok(Listing(entries, true)) else Cut(limit, entries, after)
    ensures !truncated ==> |entries| < limit && stack == rest + Subs(frame.path, children, frame.level + 1)
  {
    entries, stack, truncated := listed, rest, false;
    for i := 0 to |children|
      invariant |entries| < limit
      invariant stack == rest + Subs(frame.path, children[..i], frame.level + 1)
      invariant Cut(limit, listed, Emits(frame.path, children) + after) == Cut(limit, entries, Emits(frame.path, children[i..]) + after)
    {
      if |entries| >= limit {
        truncated := true;
        return;
      }
      var child := children[i];
      EmitsStep(frame.path, children, i);
      SubsStep(frame.path, children, i, frame.level + 1);
      if !Visible(child) {
        continue;
      }
      ghost var tail := Emits(frame.path, children[i + 1..]) + after;
      assert Emits(frame.path, children[i..]) + after == [Emit(EntryOf(frame.path, child))] + tail;
      CutStep(limit, entries, EntryOf(frame.path, child), tail);
      entries := entries + [EntryOf(frame.path, child)];
      if |entries| >= limit {
        truncated := true;
        return;
      }
      if child.node.Dir? {
        stack := stack + [Frame(frame.path + [child.name], child.node, frame.level + 1)];
      }
    }
    assert children[..|children|] == children;
    assert Emits(frame.path, []) + after == after;
  }

  function Listed(fold: Fold, base: Option<Node>, depth: nat, limit: nat): Result<Listing, FsError> {
    if base.None? then Err(NotFound)
    else if !base.value.Dir? then Err(NotDirectory)
    else Cut(limit, [], Walk(fold, depth, Frame([], base.value, 0)))
  }

  lemma EmitsStep(path: Path, kids: seq<Child>, i: nat)
    requires i < |kids|
    ensures Emits(path, kids[i..]) ==
            (if Visible(kids[i]) then [Emit(EntryOf(path, kids[i]))] else []) + Emits(path, kids[i + 1..])
  {
    assert kids[i..][1..] == kids[i + 1..];
  }

  lemma SubsStep(path: Path, kids: seq<Child>, i: nat, level: nat)
    requires i < |kids|
    ensures Subs(path, kids[..i + 1], level) == Subs(path, kids[..i], level) +
            (if Visible(kids[i]) && kids[i].node.Dir? then [Frame(path + [kids[i].name], kids[i].node, level)] else [])
  {
    assert kids[..i + 1] == kids[..i] + [kids[i]];
    SubsAppend(path, kids[..i], [kids[i]], level);
  }

  lemma {:induction false} SubsCount(path: Path, kids: seq<Child>, level: nat)
    ensures |Subs(path, kids, level)| <= |Emits(path, kids)|
  {
    if kids != [] {
      SubsCount(path, kids[1..], level);
    }
  }

  lemma CutStep(limit: nat, entries: seq<Entry>, e: Entry, events: seq<Event>)
    ensures Cut(limit, entries, [Emit(e)] + events) ==
            if |entries| + 1 >= limit then Ok(Listing(entries + [e], true)) else Cut(limit, entries + [e], events)
  {
    assert ([Emit(e)] + events)[1..] == events;
  }
}
