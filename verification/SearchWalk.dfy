/**
 The bounded content search. `Steps` is everything the search looks at, in
 order; `Run` is what offset and limit make of it; the methods are the program's
 loops over one directory, one child and one file.
 */
module SearchWalk {
  import opened Sorting
  import opened Wrappers
  import opened Tree

  const MAX_FILE_BYTES: nat := 1024 * 1024

  datatype Match = Match(path: Path, line: nat, column: nat)

  /** Something looked at without a match, a match, or an entry that cannot be read. */
  datatype Step = Tick | Hit(found: Match) | Fail

  datatype SearchError = NotFound | NotDirectory | Io

  datatype Found = Found(matches: seq<Match>, truncated: bool)

  /** `find`: where the pattern matches a line; `includes`: the path filter. */
  datatype Query = Query(find: string -> Option<nat>, includes: Path -> bool, offset: nat, limit: nat)

  // ------------------------------------------------------------ what is seen

  function LineStep(q: Query, path: Path, index: nat, line: string): Step {
    match q.find(line)
    case None => Tick
    case Some(start) => Hit(Match(path, index + 1, start + 1))
  }

  /** The lines from `index` on. */
  function LineSteps(q: Query, path: Path, lines: seq<string>, index: nat): seq<Step>
    requires index <= |lines|
    decreases |lines| - index
  {
    if index == |lines| then [] else [LineStep(q, path, index, lines[index])] + LineSteps(q, path, lines, index + 1)
  }

  predicate Searchable(q: Query, path: Path, c: Child) {
    Visible(c) && c.node.Leaf? && c.node.size <= MAX_FILE_BYTES && q.includes(path + [c.name])
  }

  function ChildSteps(q: Query, path: Path, c: Child): seq<Step> {
    if !Searchable(q, path, c) then [Tick]
    else
      match c.node.content
      case Unreadable => [Fail]
      case Text(lines) => [Tick] + LineSteps(q, path + [c.name], lines, 0)
      case _ => [Tick]
  }

  function KidsSteps(q: Query, path: Path, kids: seq<Child>): seq<Step> {
    if kids == [] then [] else ChildSteps(q, path, kids[0]) + KidsSteps(q, path, kids[1..])
  }

  lemma SubsBelow(path: Path, dir: Node)
    requires dir.Dir?
    ensures forall f :: f in Subs(path, Sort(NameLe, dir.children), 0) ==> f.dir < dir
  {
    var kids := Sort(NameLe, dir.children);
    SortElements(NameLe, dir.children);
    SubsElements(path, kids, 0);
    forall f | f in Subs(path, kids, 0) ensures f.dir < dir {
      var c :| c in kids && SubOf(path, 0, c, f);
    }
  }

  /** One directory and everything it leaves on the stack. */
  function Steps(q: Query, frame: Frame): seq<Step>
    decreases frame.dir, 1
  {
    if !frame.dir.Dir? || !frame.dir.readable then [Fail]
    else
      var kids := Sort(NameLe, frame.dir.children);
      SubsBelow(frame.path, frame.dir);
      [Tick] + KidsSteps(q, frame.path, kids) + Pops(q, frame.dir, Subs(frame.path, kids, 0))
  }

  function Pops(q: Query, ghost parent: Node, frames: seq<Frame>): seq<Step>
    requires forall f :: f in frames ==> f.dir < parent
    decreases parent, 0, |frames|
  {
    if frames == [] then []
    else
      var last := |frames| - 1;
      Steps(q, frames[last]) + Pops(q, parent, frames[..last])
  }

  function Trace(q: Query, stack: seq<Frame>): seq<Step> {
    if stack == [] then [] else Steps(q, stack[|stack| - 1]) + Trace(q, stack[..|stack| - 1])
  }

  /** Offset and limit: looking further once the page is full sets `truncated`. */
  function Run(q: Query, matches: seq<Match>, collected: nat, steps: seq<Step>): Result<Found, SearchError>
    decreases |steps|
  {
    if steps == [] then Ok(Found(matches, false))
    else if |matches| >= q.limit then Ok(Found(matches, true))
    else
      match steps[0]
      case Fail => Err(Io)
      case Tick => Run(q, matches, collected, steps[1..])
      case Hit(m) =>
        if |matches| + collected < q.offset then Run(q, matches, collected + 1, steps[1..])
        else Run(q, matches + [m], collected, steps[1..])
  }

  // -------------------------------------------------------------- the program

  /** What the loops know: the answer is settled, or it is the run of what is left. */
  ghost predicate Pending(q: Query, goal: Result<Found, SearchError>, matches: seq<Match>, collected: nat, truncated: bool, left: seq<Step>) {
    if truncated then goal == Ok(Found(matches, true)) && |matches| >= q.limit
    else goal == Run(q, matches, collected, left)
  }

  lemma RunStep(q: Query, matches: seq<Match>, collected: nat, step: Step, left: seq<Step>)
    ensures Run(q, matches, collected, [step] + left) ==
      if |matches| >= q.limit then Ok(Found(matches, true))
      else
        match step
        case Fail => Err(Io)
        case Tick => Run(q, matches, collected, left)
        case Hit(m) =>
          if |matches| + collected < q.offset then Run(q, matches, collected + 1, left)
          else Run(q, matches + [m], collected, left)
  {
    assert ([step] + left)[1..] == left;
  }

  lemma {:induction false} TracePush(q: Query, parent: Node, stack: seq<Frame>, frames: seq<Frame>)
    requires forall f :: f in frames ==> f.dir < parent
    ensures Trace(q, stack + frames) == Pops(q, parent, frames) + Trace(q, stack)
  {
    hide Steps;
    if frames == [] {
      assert stack + frames == stack;
    } else {
      var last := |frames| - 1;
      assert (stack + frames)[..|stack + frames| - 1] == stack + frames[..last];
      TracePush(q, parent, stack, frames[..last]);
    }
  }

  lemma StepsOpen(q: Query, frame: Frame, kids: seq<Child>)
    requires frame.dir.Dir? && frame.dir.readable
    requires kids == Sort(NameLe, frame.dir.children)
    requires forall f :: f in Subs(frame.path, kids, 0) ==> f.dir < frame.dir
    ensures Steps(q, frame) ==
            [Tick] + KidsSteps(q, frame.path, kids) + Pops(q, frame.dir, Subs(frame.path, kids, 0))
  {
    hide Sort, KidsSteps, Subs, Pops;
  }

  /** Popping a directory: one step of its own, its children, then the stack it leaves. */
  lemma TraceOpen(q: Query, frame: Frame, kids: seq<Child>, rest: seq<Frame>) returns (after: seq<Step>)
    requires frame.dir.Dir? && frame.dir.readable
    requires kids == Sort(NameLe, frame.dir.children)
    ensures Trace(q, rest + [frame]) == [Tick] + (KidsSteps(q, frame.path, kids) + after)
    ensures after == Trace(q, rest + Subs(frame.path, kids, 0))
  {
    TraceLast(q, rest, frame);
    hide Sort, KidsSteps, Subs, Pops, Steps, Trace;
    SubsBelow(frame.path, frame.dir);
    StepsOpen(q, frame, kids);
    var subs := Subs(frame.path, kids, 0);
    TracePush(q, frame.dir, rest, subs);
    after := Trace(q, rest + subs);
    var own, pops, below := KidsSteps(q, frame.path, kids), Pops(q, frame.dir, subs), Trace(q, rest);
    assert ([Tick] + own + pops) + below == [Tick] + (own + (pops + below));
  }

  lemma TraceLast(q: Query, rest: seq<Frame>, frame: Frame)
    ensures Trace(q, rest + [frame]) == Steps(q, frame) + Trace(q, rest)
  {
    hide Steps;
    assert (rest + [frame])[..|rest|] == rest;
  }

  function Searched(q: Query, base: Option<Node>): Result<Found, SearchError> {
    if base.None? then Err(NotFound)
    else if !base.value.Dir? then Err(NotDirectory)
    else Run(q, [], 0, Steps(q, Frame([], base.value, 0)))
  }

  lemma RunEnd(q: Query, matches: seq<Match>, collected: nat)
    ensures Run(q, matches, collected, Trace(q, [])) == Ok(Found(matches, false))
  {
  }

  lemma TraceOne(q: Query, frame: Frame)
    ensures Trace(q, [frame]) == Steps(q, frame)
  {
    hide Steps;
    assert [frame][..0] == [];
    assert Trace(q, []) == [];
  }

  /** A popped directory always has a first step: an unreadable one is nothing but that. */
  lemma TraceHead(q: Query, frame: Frame, rest: seq<Frame>)
    ensures var all := Trace(q, rest + [frame]);
      && all != [] && all == [all[0]] + all[1..]
      && (!frame.dir.Dir? || !frame.dir.readable ==> all == [Fail] + Trace(q, rest))
      && |Trace(q, rest)| < |all|
  {
    TraceLast(q, rest, frame);
    hide Trace, KidsSteps, Sort, Subs, Pops;
  }

  /** The loop over one directory's sorted children. */
  method SearchChildren(q: Query, dir: Frame, children: seq<Child>, found: seq<Match>, skipped: nat, rest: seq<Frame>,
                        ghost goal: Result<Found, SearchError>, ghost after: seq<Step>)
    returns (matches: seq<Match>, collected: nat, truncated: bool, stack: seq<Frame>, failed: bool)
    requires |found| < q.limit
    requires goal == Run(q, found, skipped, KidsSteps(q, dir.path, children) + after)
    ensures failed ==> goal == Err(Io)
    ensures !failed ==> Pending(q, goal, matches, collected, truncated, after)
    ensures !failed && !truncated ==> stack == rest + Subs(dir.path, children, 0)
  {
    hide Run, ChildSteps, Searchable;
    matches, collected, truncated, stack, failed := found, skipped, false, rest, false;
    for i := 0 to |children|
      invariant !failed
      invariant Pending(q, goal, matches, collected, truncated, KidsSteps(q, dir.path, children[i..]) + after)
      invariant stack == rest + Subs(dir.path, children[..i], 0)
    {
      var child := children[i];
      ghost var left := KidsSteps(q, dir.path, children[i + 1..]) + after;
      assert children[i..][1..] == children[i + 1..];
      assert KidsSteps(q, dir.path, children[i..]) + after == ChildSteps(q, dir.path, child) + left;
      if |matches| >= q.limit {
        FullPage(q, dir.path, child, matches, collected, left);
        truncated := true;
        return;
      }
      assert children[..i + 1] == children[..i] + [child];
      SubsAppend(dir.path, children[..i], [child], 0);
      if child.node.Dir? && Visible(child) {
        stack := stack + [Frame(dir.path + [child.name], child.node, 0)];
      }
      matches, collected, truncated, failed := SearchChild(q, dir.path, child, matches, collected, goal, left);
      if failed {
        return;
      }
    }
    assert children[..|children|] == children;
    assert KidsSteps(q, dir.path, []) + after == after;
  }

  lemma FullPage(q: Query, path: Path, child: Child, matches: seq<Match>, collected: nat, left: seq<Step>)
    requires |matches| >= q.limit
    ensures Run(q, matches, collected, ChildSteps(q, path, child) + left) == Ok(Found(matches, true))
  {
  }

  /** One child: directories and unsearchable files are passed over, text files are read. */
  method SearchChild(q: Query, path: Path, child: Child, found: seq<Match>, skipped: nat,
                     ghost goal: Result<Found, SearchError>, ghost left: seq<Step>)
    returns (matches: seq<Match>, collected: nat, truncated: bool, failed: bool)
    requires |found| < q.limit
    requires goal == Run(q, found, skipped, ChildSteps(q, path, child) + left)
    ensures if failed then goal == Err(Io) else Pending(q, goal, matches, collected, truncated, left)
  {
    hide Run;
    matches, collected, truncated, failed := found, skipped, false, false;
    ghost var own := ChildSteps(q, path, child);
    assert own + left == [own[0]] + (own[1..] + left);
    RunStep(q, matches, collected, own[0], own[1..] + left);
    if !Searchable(q, path, child) {
      assert own[1..] + left == left;
      return;
    }
    match child.node.content {
      case Unreadable =>
        failed := true;
      case Text(lines) =>
        assert own[1..] == LineSteps(q, path + [child.name], lines, 0);
        matches, collected, truncated := SearchLines(q, path + [child.name], lines, matches, collected, goal, left);
      case Binary =>
        assert own[1..] + left == left;
      case NotUtf8 =>
        assert own[1..] + left == left;
    }
  }

  /** The loop over one file's lines. */
  method SearchLines(q: Query, path: Path, lines: seq<string>, found: seq<Match>, skipped: nat,
                     ghost goal: Result<Found, SearchError>, ghost after: seq<Step>)
    returns (matches: seq<Match>, collected: nat, truncated: bool)
    requires goal == Run(q, found, skipped, LineSteps(q, path, lines, 0) + after)
    ensures Pending(q, goal, matches, collected, truncated, after)
  {
    hide Run;
    matches, collected, truncated := found, skipped, false;
    for index := 0 to |lines|
      invariant !truncated
      invariant goal == Run(q, matches, collected, LineSteps(q, path, lines, index) + after)
    {
      ghost var left := LineSteps(q, path, lines, index + 1) + after;
      ghost var step := LineStep(q, path, index, lines[index]);
      assert LineSteps(q, path, lines, index) + after == [step] + left;
      RunStep(q, matches, collected, step, left);
      if |matches| >= q.limit {
        truncated := true;
        return;
      }
      var at := q.find(lines[index]);
      if at.None? {
        continue;
      }
      if |matches| + collected < q.offset {
        collected := collected + 1;
        continue;
      }
      matches := matches + [Match(path, index + 1, at.value + 1)];
    }
    assert LineSteps(q, path, lines, |lines|) + after == after;
  }
}
