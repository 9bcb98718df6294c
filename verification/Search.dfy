/** The bounded content search: the program's loop, and what a caller may rely on. */
module Search {
  import opened Sorting
  import opened Wrappers
  import opened Tree
  import opened SearchWalk
  import opened SearchLaws

  const DEFAULT_LIMIT: nat := 100
  const MAX_LIMIT: nat := 300

  function Limit(maxResults: Option<nat>): nat {
    Clamp(if maxResults.Some? then maxResults.value else DEFAULT_LIMIT, 1, MAX_LIMIT)
  }

  /** What is promised of the result of a request, in the request's own terms. */
  ghost predicate Promised(options: Query, base: Option<Node>, maxResults: Option<nat>, result: Result<Found, SearchError>) {
    var limit := Asked(maxResults, 100, 300);
    var q := options.(limit := limit);
    && (result == Err(NotFound) <==> base.None?)
    && (result == Err(NotDirectory) <==> base.Some? && !base.value.Dir?)
    && (result.Ok? ==> |result.value.matches| <= limit && (result.value.truncated ==> |result.value.matches| == limit))
    && (base.Some? && base.value.Dir? && UniqueNames(base.value) ==>
          && (result.Ok? ==> exists skipped :: IsPage(q, base.value, skipped, result.value))
          && (result.Ok? && !result.value.truncated ==> forall path :: !Obstructs(q, base.value, path))
          && (result.Err? ==> exists path :: Obstructs(q, base.value, path)))
  }

  lemma SearchedAsPromised(options: Query, base: Option<Node>, maxResults: Option<nat>)
    ensures Promised(options, base, maxResults, Searched(options.(limit := Limit(maxResults)), base))
  {
    hide Steps, Run, Obstructs, IsPage, UniqueNames;
    var q := options.(limit := Limit(maxResults));
    assert q.limit == Asked(maxResults, 100, 300);
    if base.Some? && base.value.Dir? {
      var result := Searched(q, base);
      RunExact(q, [], 0, Steps(q, Frame([], base.value, 0)));
      if result.Ok? {
        SearchedPage(q, base.value);
      }
      if UniqueNames(base.value) {
        SearchFails(q, base.value);
        if result.Ok? {
          SearchedIsPage(q, base.value);
        }
      }
    }
  }

  /** `base`: the node the path leads to, if any. */
  method SearchFiles(options: Query, base: Option<Node>, maxResults: Option<nat>) returns (result: Result<Found, SearchError>)
    ensures result == Searched(options.(limit := Limit(maxResults)), base)
    ensures Promised(options, base, maxResults, result)
  {
    SearchedAsPromised(options, base, maxResults);
    hide Promised;
    hide Steps, Trace, KidsSteps, Sort, Subs, Run;
    var q := options.(limit := Limit(maxResults));
    if base.None? {
      return Err(NotFound);
    }
    if !base.value.Dir? {
      return Err(NotDirectory);
    }
    var matches: seq<Match> := [];
    var collected := 0;
    var truncated := false;
    var stack := [Frame([], base.value, 0)];
    ghost var goal := Run(q, [], 0, Trace(q, stack));
    TraceOne(q, stack[0]);
    while stack != []
      invariant Pending(q, goal, matches, collected, truncated, Trace(q, stack))
      decreases if truncated then 0 else 1 + |Trace(q, stack)|
    {
      var dir := stack[|stack| - 1];
      var rest := stack[..|stack| - 1];
      assert stack == rest + [dir];
      TraceHead(q, dir, rest);
      stack := rest;
      if |matches| >= q.limit {
        RunStep(q, matches, collected, Trace(q, rest + [dir])[0], Trace(q, rest + [dir])[1..]);
        truncated := true;
        break;
      }
      assert !truncated;
      if !dir.dir.Dir? || !dir.dir.readable {
        RunStep(q, matches, collected, Fail, Trace(q, rest));
        return Err(Io);
      }
      var children := Sort(NameLe, dir.dir.children);
      ghost var after := TraceOpen(q, dir, children, rest);
      RunStep(q, matches, collected, Tick, KidsSteps(q, dir.path, children) + after);
      var failed;
      matches, collected, truncated, stack, failed := SearchChildren(q, dir, children, matches, collected, rest, goal, after);
      if failed {
        return Err(Io);
      }
    }
    RunEnd(q, matches, collected);
    result := Ok(Found(matches, truncated));
  }
}
