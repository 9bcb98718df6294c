/** The bounded recursive listing: the program's loop, and what a caller may rely on. */
module ListTree {
  import opened Sorting
  import opened Wrappers
  import opened Tree
  import opened TreeOrder
  import opened TreeWalk
  import opened ListTreeLaws

  const DEFAULT_DEPTH: nat := 6
  const MAX_DEPTH: nat := 12
  const DEFAULT_LIMIT: nat := 2000
  const MAX_LIMIT: nat := 5000

  function Depth(maxDepth: Option<nat>): nat {
    Clamp(if maxDepth.Some? then maxDepth.value else DEFAULT_DEPTH, 1, MAX_DEPTH)
  }

  function Limit(maxEntries: Option<nat>): nat {
    Clamp(if maxEntries.Some? then maxEntries.value else DEFAULT_LIMIT, 1, MAX_LIMIT)
  }

  /** What is promised of the result of a request, in the request's own terms. */
  ghost predicate Promised(fold: Fold, base: Option<Node>, maxDepth: Option<nat>, maxEntries: Option<nat>, result: Result<Listing, FsError>) {
    var depth, limit := Asked(maxDepth, 6, 12), Asked(maxEntries, 2000, 5000);
    && (result == Err(NotFound) <==> base.None?)
    && (result == Err(NotDirectory) <==> base.Some? && !base.value.Dir?)
    && (result.Ok? ==> |result.value.entries| <= limit && (result.value.truncated <==> |result.value.entries| == limit))
    && (base.Some? && base.value.Dir? && UniqueNames(base.value) ==>
          && (result.Ok? ==> FirstEntries(fold, base.value, depth, result.value))
          && (result.Ok? && !result.value.truncated ==> forall path :: !Obstructs(base.value, depth, path))
          && (result.Err? ==> exists path :: Obstructs(base.value, depth, path)))
  }

  lemma ListedAsPromised(fold: Fold, base: Option<Node>, maxDepth: Option<nat>, maxEntries: Option<nat>)
    ensures Promised(fold, base, maxDepth, maxEntries, Listed(fold, base, Depth(maxDepth), Limit(maxEntries)))
  {
    hide Walk, Cut, Obstructs, FirstEntries, UniqueNames, Before;
    var depth, limit := Depth(maxDepth), Limit(maxEntries);
    assert depth == Asked(maxDepth, 6, 12) && limit == Asked(maxEntries, 2000, 5000);
    var result := Listed(fold, base, depth, limit);
    if base.Some? && base.value.Dir? {
      ListedExact(fold, base.value, depth, limit);
      CutExact(limit, [], Walk(fold, depth, Frame([], base.value, 0)));
      if UniqueNames(base.value) {
        ListingFails(fold, base.value, depth, limit);
        if result.Ok? {
          ListingFirst(fold, base.value, depth, limit);
        }
      }
    }
  }

  /** `base`: the node the path leads to, if any. */
  method ListTree(fold: Fold, base: Option<Node>, maxDepth: Option<nat>, maxEntries: Option<nat>)
    returns (result: Result<Listing, FsError>)
    ensures result == Listed(fold, base, Depth(maxDepth), Limit(maxEntries))
    ensures Promised(fold, base, maxDepth, maxEntries, result)
  {
    ListedAsPromised(fold, base, maxDepth, maxEntries);
    hide Promised;
    hide Emits, Subs, Sort, Walk, Trace, Cut;
    var depth := Depth(maxDepth);
    var limit := Limit(maxEntries);
    if base.None? {
      return Err(NotFound);
    }
    if !base.value.Dir? {
      return Err(NotDirectory);
    }
    var entries: seq<Entry> := [];
    var truncated := false;
    var stack := [Frame([], base.value, 0)];
    ghost var all := Walk(fold, depth, stack[0]);
    TraceOne(fold, depth, stack[0]);
    while stack != []
      invariant !truncated && |entries| < limit
      invariant Cut(limit, [], all) == Cut(limit, entries, Trace(fold, depth, stack))
      decreases |Trace(fold, depth, stack)| + |stack|
    {
      var frame := stack[|stack| - 1];
      var rest := stack[..|stack| - 1];
      TracePop(fold, depth, stack, limit, entries);
      stack := rest;
      if frame.level >= depth {
        continue;
      }
      if !frame.dir.Dir? || !frame.dir.readable {
        return Err(Io);
      }
      var children := Sort(Folded(fold), frame.dir.children);
      ghost var after := StepTrace(fold, depth, frame, children, rest);
      entries, stack, truncated := ListChildren(frame, children, limit, entries, rest, after);
      if truncated {
        return Ok(Listing(entries, true));
      }
      SubsCount(frame.path, children, frame.level + 1);
    }
    CutEnd(fold, depth, limit, entries);
    result := Ok(Listing(entries, truncated));
  }
}
