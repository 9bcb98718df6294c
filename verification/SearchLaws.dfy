/** What a page of search results contains. */
module SearchLaws {
  import opened Sorting
  import opened Wrappers
  import opened Tree
  import opened TreeOrder
  import opened SearchWalk

  // --------------------------------------------------------- offset and limit

  /** Every match, in walk order. */
  function Hits(steps: seq<Step>): seq<Match> {
    if steps == [] then []
    else if steps[0].Hit? then [steps[0].found] + Hits(steps[1..])
    else Hits(steps[1..])
  }

  /** How far the search looks to see `need` matches; it stops at a failure. */
  function Reach(steps: seq<Step>, need: nat): (p: nat)
    ensures p <= |steps|
    ensures |Hits(steps[..p])| <= need
    ensures p < |steps| && |Hits(steps[..p])| < need ==> steps[p].Fail?
    ensures Fail !in steps[..p]
  {
    if need == 0 || steps == [] || steps[0].Fail? then 0
    else
      var rest := Reach(steps[1..], if steps[0].Hit? then need - 1 else need);
      assert steps[..rest + 1] == [steps[0]] + steps[1..][..rest];
      rest + 1
  }

  function Drop<T>(s: seq<T>, n: nat): seq<T> {
    if n <= |s| then s[n..] else []
  }

  /**
   The page ends where `need` more matches have been seen, `skip` of them before
   the page starts. It is truncated exactly when anything at all is left to look
   at there, a match or not.
   */
  function Outcome(matches: seq<Match>, skip: nat, need: nat, steps: seq<Step>): Result<Found, SearchError> {
    var p := Reach(steps, need);
    var seen := Hits(steps[..p]);
    if |seen| == need then Ok(Found(matches + Drop(seen, skip), p < |steps|))
    else if p < |steps| then Err(Io)
    else Ok(Found(matches + Drop(seen, skip), false))
  }

  lemma OutcomeTick(matches: seq<Match>, skip: nat, need: nat, steps: seq<Step>)
    requires steps != [] && steps[0].Tick? && need > 0
    ensures Outcome(matches, skip, need, steps) == Outcome(matches, skip, need, steps[1..])
  {
    var rest := Reach(steps[1..], need);
    assert steps[..rest + 1][1..] == steps[1..][..rest];
  }

  lemma OutcomeSkip(matches: seq<Match>, skip: nat, need: nat, steps: seq<Step>)
    requires steps != [] && steps[0].Hit? && need > 0 && skip > 0
    ensures Outcome(matches, skip, need, steps) == Outcome(matches, skip - 1, need - 1, steps[1..])
  {
    var rest := Reach(steps[1..], need - 1);
    var seen := Hits(steps[1..][..rest]);
    assert steps[..rest + 1][1..] == steps[1..][..rest];
    assert Hits(steps[..rest + 1]) == [steps[0].found] + seen;
    assert Drop([steps[0].found] + seen, skip) == Drop(seen, skip - 1);
  }

  lemma OutcomeTake(matches: seq<Match>, need: nat, steps: seq<Step>)
    requires steps != [] && steps[0].Hit? && need > 0
    ensures Outcome(matches, 0, need, steps) == Outcome(matches + [steps[0].found], 0, need - 1, steps[1..])
  {
    var rest := Reach(steps[1..], need - 1);
    var seen := Hits(steps[1..][..rest]);
    assert steps[..rest + 1][1..] == steps[1..][..rest];
    assert matches + ([steps[0].found] + seen) == (matches + [steps[0].found]) + seen;
  }

  lemma OutcomeEnd(matches: seq<Match>, skip: nat, need: nat, steps: seq<Step>)
    ensures steps == [] ==> Outcome(matches, skip, need, steps) == Ok(Found(matches, false))
    ensures steps != [] && need == 0 ==> Outcome(matches, skip, need, steps) == Ok(Found(matches, true))
    ensures steps != [] && steps[0].Fail? && need > 0 ==> Outcome(matches, skip, need, steps) == Err(Io)
  {
    assert matches + [] == matches;
    assert Hits(steps[..0]) == [];
  }

  lemma {:induction false} RunExact(q: Query, matches: seq<Match>, collected: nat, steps: seq<Step>)
    requires collected <= q.offset && (matches != [] ==> collected == q.offset)
    requires |matches| <= q.limit && q.limit > 0
    ensures Run(q, matches, collected, steps) ==
            Outcome(matches, q.offset - collected, q.offset - collected + q.limit - |matches|, steps)
    decreases |steps|
  {
    hide Outcome;
    var skip, need := q.offset - collected, q.offset - collected + q.limit - |matches|;
    OutcomeEnd(matches, skip, need, steps);
    if steps != [] && |matches| < q.limit && !steps[0].Fail? {
      match steps[0]
      case Tick =>
        OutcomeTick(matches, skip, need, steps);
        RunExact(q, matches, collected, steps[1..]);
      case Hit(m) =>
        if |matches| + collected < q.offset {
          OutcomeSkip(matches, skip, need, steps);
          RunExact(q, matches, collected + 1, steps[1..]);
        } else {
          OutcomeTake(matches, need, steps);
          RunExact(q, matches + [m], collected, steps[1..]);
        }
    }
  }

  lemma {:induction false} HitsConcat(a: seq<Step>, b: seq<Step>)
    ensures Hits(a + b) == Hits(a) + Hits(b)
  {
    if a == [] {
      assert a + b == b;
    } else {
      HitsConcat(a[1..], b);
      assert (a + b)[1..] == a[1..] + b;
    }
  }

  /** `all_matches[offset .. offset + limit]`, cut off at the end of the matches. */
  function Page(all: seq<Match>, offset: nat, limit: nat): seq<Match> {
    var rest := Drop(all, offset);
    if |rest| <= limit then rest else rest[..limit]
  }

  /**
   A search that succeeds returns the page of all matches. Not truncated, it has
   looked at everything and nothing after the offset is missing; truncated, it is
   full.
   */
  lemma SearchedPage(q: Query, base: Node)
    requires base.Dir? && q.limit > 0
    requires Searched(q, Some(base)).Ok?
    ensures var all := Hits(Steps(q, Frame([], base, 0))); var r := Searched(q, Some(base)).value;
      && r.matches == Page(all, q.offset, q.limit)
      && (r.truncated ==> |r.matches| == q.limit)
      && (!r.truncated ==> r.matches == Drop(all, q.offset) && Fail !in Steps(q, Frame([], base, 0)))
  {
    hide Steps;
    var steps := Steps(q, Frame([], base, 0));
    RunExact(q, [], 0, steps);
    var need := q.offset + q.limit;
    var p := Reach(steps, need);
    var seen := Hits(steps[..p]);
    assert steps == steps[..p] + steps[p..];
    HitsConcat(steps[..p], steps[p..]);
    if p == |steps| {
      assert steps[..p] == steps;
      assert Hits(steps[p..]) == [];
    }
    assert [] + Drop(seen, q.offset) == Drop(seen, q.offset);
    if |seen| == need {
      assert Drop(Hits(steps), q.offset)[..q.limit] == Drop(seen, q.offset);
    }
  }

  // ----------------------------------------------------- what counts as a match

  /** The match is the place where the pattern occurs in a line of a searchable file below the frame. */
  predicate Matches(q: Query, frame: Frame, m: Match) {
    && |frame.path| < |m.path| && frame.path <= m.path
    && q.includes(m.path)
    && var node := Resolve(frame.dir, m.path[|frame.path|..]);
       && node.Some? && node.value.Leaf? && node.value.size <= MAX_FILE_BYTES && node.value.content.Text?
       && LineMatches(q, node.value.content.lines, m)
  }

  predicate LineMatches(q: Query, lines: seq<string>, m: Match) {
    1 <= m.line <= |lines| && m.column > 0 && q.find(lines[m.line - 1]) == Some((m.column - 1) as nat)
  }

  lemma {:induction false} LineHits(q: Query, path: Path, lines: seq<string>, index: nat, m: Match)
    requires index <= |lines|
    ensures Hit(m) in LineSteps(q, path, lines, index) <==> m.path == path && index < m.line && LineMatches(q, lines, m)
    decreases |lines| - index
  {
    if index < |lines| {
      LineHits(q, path, lines, index + 1, m);
    }
  }

  lemma ChildHits(q: Query, path: Path, c: Child, m: Match)
    ensures Hit(m) in ChildSteps(q, path, c) <==>
      Searchable(q, path, c) && c.node.content.Text? && m.path == path + [c.name] && LineMatches(q, c.node.content.lines, m)
  {
    if Searchable(q, path, c) && c.node.content.Text? {
      LineHits(q, path + [c.name], c.node.content.lines, 0, m);
    }
  }

  lemma {:induction false} KidsHits(q: Query, path: Path, kids: seq<Child>, step: Step)
    ensures step in KidsSteps(q, path, kids) <==> exists c :: c in kids && step in ChildSteps(q, path, c)
  {
    hide ChildSteps;
    if kids != [] {
      KidsHits(q, path, kids[1..], step);
      assert kids == [kids[0]] + kids[1..];
    }
  }

  lemma {:induction false} PopsHits(q: Query, parent: Node, frames: seq<Frame>, step: Step)
    requires forall f :: f in frames ==> f.dir < parent
    ensures step in Pops(q, parent, frames) <==> exists f :: f in frames && step in Steps(q, f)
  {
    hide Steps;
    if frames != [] {
      var last := |frames| - 1;
      PopsHits(q, parent, frames[..last], step);
      assert frames == frames[..last] + [frames[last]];
      assert step in Steps(q, frames[last]) ==> frames[last] in frames;
      assert forall f :: f in frames <==> f == frames[last] || f in frames[..last];
    }
  }

  /** The child a match below `frame` passes through, and the frame it is found from. */
  lemma MatchesThrough(q: Query, frame: Frame, m: Match) returns (c: Child)
    requires Matches(q, frame, m)
    ensures frame.dir.Dir? && frame.dir.readable
    ensures c in frame.dir.children && Visible(c) && frame.path + [c.name] <= m.path
    ensures |m.path| > |frame.path| + 1 ==> c.node.Dir?
  {
    var rel := m.path[|frame.path|..];
    var hits := Named(frame.dir.children, rel[0]);
    c := hits[0];
    assert c in hits;
    assert m.path == frame.path + rel;
    assert rel[..1] == [c.name];
    assert Resolve(frame.dir, rel) == Resolve(c.node, rel[1..]);
    if |rel| > 1 {
      assert rel[1..] != [];
      assert Resolve(c.node, rel[1..]).Some?;
    }
  }

  lemma MatchesBelow(q: Query, frame: Frame, m: Match, c: Child)
    requires UniqueNames(frame.dir) && frame.dir.Dir? && frame.dir.readable
    requires c in frame.dir.children && Visible(c)
    requires frame.path + [c.name] <= m.path
    ensures |m.path| > |frame.path| + 1 ==>
      (Matches(q, frame, m) <==> Matches(q, Frame(frame.path + [c.name], c.node, 0), m))
    ensures |m.path| == |frame.path| + 1 ==>
      (Matches(q, frame, m) <==> Hit(m) in ChildSteps(q, frame.path, c))
  {
    var rel := m.path[|frame.path|..];
    NamedUnique(frame.dir, c.name, c);
    assert rel[0] == c.name;
    assert rel[1..] == m.path[|frame.path| + 1..];
    assert Resolve(frame.dir, rel) == Resolve(c.node, rel[1..]);
    assert |m.path| == |frame.path| + 1 ==> m.path == frame.path + [c.name];
    ChildHits(q, frame.path, c, m);
  }

  lemma MatchesLonger(q: Query, frame: Frame, m: Match)
    requires Matches(q, frame, m)
    ensures |m.path| > |frame.path| && frame.path <= m.path
  {
  }

  /** The walk finds exactly the matches of the searchable files. */
  lemma {:induction false} StepsFind(q: Query, frame: Frame, m: Match)
    requires UniqueNames(frame.dir)
    ensures Hit(m) in Steps(q, frame) <==> Matches(q, frame, m)
    decreases frame.dir
  {
    if frame.dir.Dir? && frame.dir.readable {
      StepsFindOpen(q, frame, m);
    } else if Matches(q, frame, m) {
      var _ := MatchesThrough(q, frame, m);
    }
  }

  lemma {:induction false} StepsFindOpen(q: Query, frame: Frame, m: Match)
    requires UniqueNames(frame.dir) && frame.dir.Dir? && frame.dir.readable
    ensures Hit(m) in Steps(q, frame) <==> Matches(q, frame, m)
    decreases frame.dir, 0
  {
    hide Steps, KidsSteps, ChildSteps, Subs, Sort, Matches, Pops;
    var kids := Sort(NameLe, frame.dir.children);
    var subs := Subs(frame.path, kids, 0);
    SortElements(NameLe, frame.dir.children);
    SubsBelow(frame.path, frame.dir);
    StepsOpen(q, frame, kids);
    KidsHits(q, frame.path, kids, Hit(m));
    PopsHits(q, frame.dir, subs, Hit(m));
    SubsElements(frame.path, kids, 0);
    forall f | f in subs ensures Hit(m) in Steps(q, f) <==> Matches(q, f, m) {
      var c :| c in kids && SubOf(frame.path, 0, c, f);
      StepsFind(q, f, m);
    }
    if Hit(m) in KidsSteps(q, frame.path, kids) {
      var c :| c in kids && Hit(m) in ChildSteps(q, frame.path, c);
      ChildHits(q, frame.path, c, m);
      MatchesBelow(q, frame, m, c);
    }
    if Hit(m) in Pops(q, frame.dir, subs) {
      var f :| f in subs && Matches(q, f, m);
      var c :| c in kids && SubOf(frame.path, 0, c, f);
      MatchesLonger(q, f, m);
      MatchesBelow(q, frame, m, c);
    }
    if Matches(q, frame, m) {
      MatchesLonger(q, frame, m);
      var c := MatchesThrough(q, frame, m);
      MatchesBelow(q, frame, m, c);
      if |m.path| > |frame.path| + 1 {
        assert SubOf(frame.path, 0, c, Frame(frame.path + [c.name], c.node, 0));
      }
    }
  }

  lemma {:induction false} HitsAreSteps(steps: seq<Step>, m: Match)
    ensures m in Hits(steps) <==> Hit(m) in steps
  {
    if steps != [] {
      HitsAreSteps(steps[1..], m);
      assert steps == [steps[0]] + steps[1..];
    }
  }

  /** An untruncated search from the start returns every match there is, and nothing else. */
  lemma SearchComplete(q: Query, base: Node, m: Match)
    requires base.Dir? && UniqueNames(base) && q.limit > 0
    requires Searched(q, Some(base)).Ok?
    ensures m in Searched(q, Some(base)).value.matches ==> Matches(q, Frame([], base, 0), m)
    ensures !Searched(q, Some(base)).value.truncated && q.offset == 0 && Matches(q, Frame([], base, 0), m) ==>
      m in Searched(q, Some(base)).value.matches
  {
    hide Steps, Matches, Run;
    var steps := Steps(q, Frame([], base, 0));
    SearchedPage(q, base);
    HitsAreSteps(steps, m);
    StepsFind(q, Frame([], base, 0), m);
  }

  // ---------------------------------------------------------------- in order

  /** Of two places in one file the earlier line comes first; otherwise the order of the files decides. */
  ghost predicate MatchBefore(m: Match, n: Match) {
    if m.path == n.path then m.line < n.line else Precedes(Same, m.path, n.path)
  }

  ghost predicate InOrder(matches: seq<Match>) {
    forall i, j :: 0 <= i < j < |matches| ==> MatchBefore(matches[i], matches[j])
  }

  lemma InOrderConcat(a: seq<Match>, b: seq<Match>)
    requires InOrder(a) && InOrder(b)
    requires forall m, n :: m in a && n in b ==> MatchBefore(m, n)
    ensures InOrder(a + b)
  {
    hide MatchBefore;
  }

  lemma NoneInOrder(m: Match)
    ensures InOrder([]) && InOrder([m])
  {
  }

  lemma {:induction false} LinesInOrder(q: Query, path: Path, lines: seq<string>, index: nat)
    requires index <= |lines|
    ensures InOrder(Hits(LineSteps(q, path, lines, index)))
    decreases |lines| - index
  {
    hide LineMatches, InOrder, MatchBefore;
    if index == |lines| {
      NoneInOrder(Match([], 0, 0));
    } else {
      LinesInOrder(q, path, lines, index + 1);
      var step := LineStep(q, path, index, lines[index]);
      var rest := LineSteps(q, path, lines, index + 1);
      assert ([step] + rest)[1..] == rest;
      if step.Hit? {
        NoneInOrder(step.found);
        forall n | n in Hits(rest) ensures MatchBefore(step.found, n) {
          HitsAreSteps(rest, n);
          LineHits(q, path, lines, index + 1, n);
          LaterLine(step.found, n);
        }
        InOrderConcat([step.found], Hits(rest));
      }
    }
  }

  lemma LaterLine(m: Match, n: Match)
    requires m.path == n.path && m.line < n.line
    ensures MatchBefore(m, n)
  {
  }

  lemma LaterPath(m: Match, n: Match)
    requires Precedes(Same, m.path, n.path)
    ensures MatchBefore(m, n)
  {
    hide Precedes;
    PrecedesDistinct(Same, m.path, n.path);
  }

  lemma ChildInOrder(q: Query, path: Path, c: Child)
    ensures InOrder(Hits(ChildSteps(q, path, c)))
  {
    hide InOrder;
    NoneInOrder(Match([], 0, 0));
    if Searchable(q, path, c) && c.node.content.Text? {
      var lines := LineSteps(q, path + [c.name], c.node.content.lines, 0);
      LinesInOrder(q, path + [c.name], c.node.content.lines, 0);
      assert ([Tick] + lines)[1..] == lines;
    }
  }

  lemma {:induction false} KidsInOrder(q: Query, path: Path, kids: seq<Child>)
    requires NamesRise(Same, kids)
    ensures InOrder(Hits(KidsSteps(q, path, kids)))
  {
    hide InOrder, MatchBefore, ChildSteps, LineMatches, Searchable, NameBefore, Precedes;
    if kids == [] {
      NoneInOrder(Match([], 0, 0));
    } else {
      var own, rest := ChildSteps(q, path, kids[0]), KidsSteps(q, path, kids[1..]);
      ChildInOrder(q, path, kids[0]);
      KidsInOrder(q, path, kids[1..]);
      HitsConcat(own, rest);
      forall m, n | m in Hits(own) && n in Hits(rest) ensures MatchBefore(m, n) {
        HitsAreSteps(own, m);
        ChildHits(q, path, kids[0], m);
        HitsAreSteps(rest, n);
        KidsHits(q, path, kids[1..], Hit(n));
        var c :| c in kids[1..] && Hit(n) in ChildSteps(q, path, c);
        ChildHits(q, path, c, n);
        SiblingsPrecede(Same, path, kids[0].name, c.name);
        LaterPath(m, n);
      }
      InOrderConcat(Hits(own), Hits(rest));
    }
  }

  lemma {:induction false} PopsInOrder(q: Query, parent: Node, path: Path, frames: seq<Frame>)
    requires forall f :: f in frames ==> f.dir < parent && UniqueNames(f.dir)
    requires FramesRise(Same, path, frames)
    ensures InOrder(Hits(Pops(q, parent, frames)))
    decreases parent, 0, |frames|
  {
    hide InOrder, MatchBefore, Steps, Matches, NameBefore, Precedes;
    if frames == [] {
      NoneInOrder(Match([], 0, 0));
    } else {
      var last := |frames| - 1;
      var own, rest := Steps(q, frames[last]), Pops(q, parent, frames[..last]);
      StepsInOrder(q, frames[last]);
      PopsInOrder(q, parent, path, frames[..last]);
      HitsConcat(own, rest);
      forall m, n | m in Hits(own) && n in Hits(rest) ensures MatchBefore(m, n) {
        HitsAreSteps(own, m);
        HitsAreSteps(rest, n);
        PopsHits(q, parent, frames[..last], Hit(n));
        var f :| f in frames[..last] && Hit(n) in Steps(q, f);
        StepsFind(q, frames[last], m);
        StepsFind(q, f, n);
        MatchesLonger(q, frames[last], m);
        MatchesLonger(q, f, n);
        assert SubdirectoryOf(path, f) && SubdirectoryOf(path, frames[last]);
        LaterFirst(Same, path, m.path, n.path);
        LaterPath(m, n);
      }
      InOrderConcat(Hits(own), Hits(rest));
    }
  }

  /** The search comes across matches in their order. */
  lemma {:induction false} StepsInOrder(q: Query, frame: Frame)
    requires UniqueNames(frame.dir)
    ensures InOrder(Hits(Steps(q, frame)))
    decreases frame.dir, 1
  {
    if frame.dir.Dir? && frame.dir.readable {
      StepsInOrderOpen(q, frame);
    }
  }

  lemma {:induction false} StepsInOrderOpen(q: Query, frame: Frame)
    requires UniqueNames(frame.dir) && frame.dir.Dir? && frame.dir.readable
    ensures InOrder(Hits(Steps(q, frame)))
    decreases frame.dir, 0
  {
    hide InOrder, MatchBefore, Steps, KidsSteps, ChildSteps, Searchable, LineMatches, Subs, Sort, Matches, Pops, NameBefore, Precedes, Hits;
    var kids := Sort(NameLe, frame.dir.children);
    var subs := Subs(frame.path, kids, 0);
    SortElements(NameLe, frame.dir.children);
    PlainRise(frame.dir.children);
    SubsBelow(frame.path, frame.dir);
    StepsOpen(q, frame, kids);
    var own, rest := KidsSteps(q, frame.path, kids), Pops(q, frame.dir, subs);
    TickFirst(own, rest);
    KidsInOrder(q, frame.path, kids);
    SubsRise(Same, frame.path, kids, 0);
    SubsElements(frame.path, kids, 0);
    forall f | f in subs ensures UniqueNames(f.dir) {
      var c :| c in kids && SubOf(frame.path, 0, c, f);
    }
    PopsInOrder(q, frame.dir, frame.path, subs);
    forall m, n | m in Hits(own) && n in Hits(rest) ensures MatchBefore(m, n) {
      HitsAreSteps(own, m);
      KidsHits(q, frame.path, kids, Hit(m));
      var c :| c in kids && Hit(m) in ChildSteps(q, frame.path, c);
      ChildHits(q, frame.path, c, m);
      HitsAreSteps(rest, n);
      PopsHits(q, frame.dir, subs, Hit(n));
      var f :| f in subs && Hit(n) in Steps(q, f);
      StepsFind(q, f, n);
      MatchesLonger(q, f, n);
      OwnFirst(Same, frame.path, c.name, n.path);
      LaterPath(m, n);
    }
    InOrderConcat(Hits(own), Hits(rest));
  }

  lemma TickFirst(own: seq<Step>, rest: seq<Step>)
    ensures Hits([Tick] + own + rest) == Hits(own) + Hits(rest)
  {
    HitsConcat(own, rest);
    assert ([Tick] + own + rest)[1..] == own + rest;
  }

  // ------------------------------------------------- the enumeration order

  lemma TwinSteps(q: Query, path: Path, c: Child, d: Child)
    requires Twins(c, d)
    ensures ChildSteps(q, path, c) == ChildSteps(q, path, d)
  {
    TwinNames(c, d);
    ReorderedKind(c.node, d.node);
    hide Reordered;
  }

  lemma {:induction false} KidsStepsSame(q: Query, path: Path, a: seq<Child>, b: seq<Child>)
    requires Paired(a, b)
    ensures KidsSteps(q, path, a) == KidsSteps(q, path, b)
  {
    hide Twins, ChildSteps;
    if a != [] {
      TwinSteps(q, path, a[0], b[0]);
      PairedRest(a, b);
      KidsStepsSame(q, path, a[1..], b[1..]);
    }
  }

  /** What a search looks at, and in which order, does not depend on how the system enumerates any directory. */
  lemma {:induction false} StepsIgnoreReadDirOrder(q: Query, path: Path, a: Node, b: Node, level: nat)
    requires UniqueNames(a) && UniqueNames(b) && Reordered(a, b)
    ensures Steps(q, Frame(path, a, level)) == Steps(q, Frame(path, b, level))
    decreases a, 1
  {
    if a.Dir? && a.readable {
      OpenIgnoresReadDirOrder(q, path, a, b, level);
    }
  }

  lemma {:induction false} OpenIgnoresReadDirOrder(q: Query, path: Path, a: Node, b: Node, level: nat)
    requires UniqueNames(a) && UniqueNames(b) && Reordered(a, b) && a.Dir? && a.readable
    ensures Steps(q, Frame(path, a, level)) == Steps(q, Frame(path, b, level))
    decreases a, 0
  {
    hide Sort, Steps, KidsSteps, Subs, Pops, Reordered, UniqueNames, PairedFrames;
    ReorderedMatched(a, b);
    ChildrenDistinct(a);
    ChildrenDistinct(b);
    var x, y := Sort(NameLe, a.children), Sort(NameLe, b.children);
    NameByName();
    SortedPaired(NameLe, a.children, b.children);
    SubsBelow(path, a);
    SubsBelow(path, b);
    SortElements(NameLe, a.children);
    SortElements(NameLe, b.children);
    ChildrenUnique(a, x);
    ChildrenUnique(b, y);
    KidsStepsSame(q, path, x, y);
    SubsPaired(path, x, y, 0);
    StepsOpen(q, Frame(path, a, level), x);
    StepsOpen(q, Frame(path, b, level), y);
    PopsSame(q, a, b, Subs(path, x, 0), Subs(path, y, 0));
  }

  lemma {:induction false} PopsSame(q: Query, p: Node, r: Node, x: seq<Frame>, y: seq<Frame>)
    requires forall f :: f in x ==> f.dir < p
    requires forall f :: f in y ==> f.dir < r
    requires PairedFrames(x, y)
    ensures Pops(q, p, x) == Pops(q, r, y)
    decreases p, 0, |x|
  {
    hide Steps, Reordered, UniqueNames;
    if x != [] {
      var last := |x| - 1;
      PopsSame(q, p, r, x[..last], y[..last]);
      assert TwinFrames(x[last], y[last]) && x[last] in x;
      StepsIgnoreReadDirOrder(q, x[last].path, x[last].dir, y[last].dir, x[last].level);
    }
  }

  // ---------------------------------------------------------- when it fails

  /** A directory that cannot be read, or a file to search that cannot. */
  predicate Stops(q: Query, path: Path, node: Node) {
    if node.Dir? then !node.readable
    else node.size <= MAX_FILE_BYTES && q.includes(path) && node.content.Unreadable?
  }

  ghost predicate Blocks(q: Query, frame: Frame, path: Path) {
    frame.path <= path && var node := Resolve(frame.dir, path[|frame.path|..]); node.Some? && Stops(q, path, node.value)
  }

  lemma BlocksBelow(q: Query, frame: Frame, c: Child, path: Path)
    requires UniqueNames(frame.dir) && frame.dir.Dir? && frame.dir.readable && c in frame.dir.children && Visible(c)
    requires frame.path + [c.name] <= path
    ensures c.node.Dir? ==> (Blocks(q, frame, path) <==> Blocks(q, Frame(frame.path + [c.name], c.node, 0), path))
    ensures c.node.Leaf? && path == frame.path + [c.name] ==> (Blocks(q, frame, path) <==> Fail in ChildSteps(q, frame.path, c))
  {
    NamedUnique(frame.dir, c.name, c);
    var rel := path[|frame.path|..];
    assert rel[0] == c.name && rel[1..] == path[|frame.path| + 1..];
    assert Resolve(frame.dir, rel) == Resolve(c.node, rel[1..]);
    if c.node.Leaf? && path == frame.path + [c.name] {
      assert rel[1..] == [];
      assert Resolve(c.node, []) == Some(c.node);
      assert path == frame.path + [c.name];
      if c.node.content.Text? {
        LinesDoNotFail(q, path, c.node.content.lines, 0);
      }
    }
  }

  lemma {:induction false} LinesDoNotFail(q: Query, path: Path, lines: seq<string>, index: nat)
    requires index <= |lines|
    ensures Fail !in LineSteps(q, path, lines, index)
    decreases |lines| - index
  {
    if index < |lines| {
      LinesDoNotFail(q, path, lines, index + 1);
    }
  }

  lemma FailingChild(q: Query, path: Path, c: Child)
    requires Fail in ChildSteps(q, path, c)
    ensures Visible(c) && c.node.Leaf?
  {
  }

  lemma {:induction false} FailsFrom(q: Query, frame: Frame) returns (path: Path)
    requires UniqueNames(frame.dir) && frame.dir.Dir?
    requires Fail in Steps(q, frame)
    ensures Blocks(q, frame, path)
    decreases frame.dir
  {
    path := frame.path;
    assert path[|frame.path|..] == [];
    if frame.dir.readable {
      hide Steps, KidsSteps, ChildSteps, Subs, Sort, Pops, Blocks;
      var kids := Sort(NameLe, frame.dir.children);
      var subs := Subs(frame.path, kids, 0);
      SortElements(NameLe, frame.dir.children);
      SubsBelow(frame.path, frame.dir);
      StepsOpen(q, frame, kids);
      KidsHits(q, frame.path, kids, Fail);
      PopsHits(q, frame.dir, subs, Fail);
      SubsElements(frame.path, kids, 0);
      if Fail in KidsSteps(q, frame.path, kids) {
        var c :| c in kids && Fail in ChildSteps(q, frame.path, c);
        FailingChild(q, frame.path, c);
        path := frame.path + [c.name];
        BlocksBelow(q, frame, c, path);
      } else {
        var f :| f in subs && Fail in Steps(q, f);
        var c :| c in kids && SubOf(frame.path, 0, c, f);
        path := FailsFrom(q, f);
        BlocksLonger(q, f, path);
        BlocksBelow(q, frame, c, path);
      }
    }
  }

  lemma BlocksLonger(q: Query, frame: Frame, path: Path)
    requires Blocks(q, frame, path)
    ensures frame.path <= path
  {
  }

  /** The child a blocked path passes through. */
  lemma BlocksThrough(q: Query, frame: Frame, path: Path) returns (c: Child)
    requires Blocks(q, frame, path) && path != frame.path
    ensures frame.dir.Dir? && frame.dir.readable
    ensures c in frame.dir.children && Visible(c) && frame.path + [c.name] <= path
    ensures c.node.Leaf? ==> path == frame.path + [c.name]
  {
    var rel := path[|frame.path|..];
    assert path == frame.path + rel;
    var hits := Named(frame.dir.children, rel[0]);
    c := hits[0];
    assert c in hits;
    assert rel == [c.name] + rel[1..];
    assert Resolve(frame.dir, rel) == Resolve(c.node, rel[1..]);
    assert c.node.Leaf? ==> rel[1..] == [];
  }

  lemma {:induction false} FailsAt(q: Query, frame: Frame, path: Path)
    requires UniqueNames(frame.dir) && frame.dir.Dir?
    requires Blocks(q, frame, path)
    ensures Fail in Steps(q, frame)
    decreases frame.dir
  {
    if path != frame.path {
      hide Steps, KidsSteps, ChildSteps, Subs, Sort, Pops, Blocks;
      var c := BlocksThrough(q, frame, path);
      var kids := Sort(NameLe, frame.dir.children);
      var subs := Subs(frame.path, kids, 0);
      SortElements(NameLe, frame.dir.children);
      SubsBelow(frame.path, frame.dir);
      StepsOpen(q, frame, kids);
      KidsHits(q, frame.path, kids, Fail);
      PopsHits(q, frame.dir, subs, Fail);
      SubsElements(frame.path, kids, 0);
      BlocksBelow(q, frame, c, path);
      if c.node.Dir? {
        var f := Frame(frame.path + [c.name], c.node, 0);
        assert SubOf(frame.path, 0, c, f);
        FailsAt(q, f, path);
      }
    } else {
      assert path[|frame.path|..] == [];
    }
  }

  // -------------------------------------------- what a caller may rely on

  /** The pattern occurs there, in a file that is searched. */
  ghost predicate IsMatch(q: Query, base: Node, m: Match) {
    q.includes(m.path) && exists node :: Leads(base, m.path, node) && OccursIn(q, node, m)
  }

  predicate OccursIn(q: Query, node: Node, m: Match) {
    && node.Leaf? && node.size <= 1024 * 1024 && node.content.Text?
    && 1 <= m.line <= |node.content.lines| && m.column >= 1
    && q.find(node.content.lines[m.line - 1]) == Some((m.column - 1) as nat)
  }

  /** An entry on the way that would have to be read and cannot. */
  ghost predicate Obstructs(q: Query, base: Node, path: Path) {
    exists node :: Leads(base, path, node) && Stuck(q, path, node)
  }

  predicate Stuck(q: Query, path: Path, node: Node) {
    if node.Dir? then !node.readable else node.size <= 1024 * 1024 && q.includes(path) && node.content.Unreadable?
  }

  /** Matches in their order, `skipped` ones before them; what is missing comes later, and is only missing when truncated. */
  ghost predicate IsPage(q: Query, base: Node, skipped: seq<Match>, r: Found) {
    && |skipped| <= q.offset && (r.matches != [] ==> |skipped| == q.offset)
    && InOrder(skipped + r.matches)
    && (forall m :: m in skipped + r.matches ==> IsMatch(q, base, m))
    && forall m, n :: n !in skipped + r.matches && IsMatch(q, base, n) ==>
         r.truncated && (m in skipped + r.matches ==> MatchBefore(m, n))
  }

  lemma IsMatchIff(q: Query, base: Node, m: Match)
    requires UniqueNames(base) && base.Dir?
    ensures IsMatch(q, base, m) <==> Matches(q, Frame([], base, 0), m)
  {
    hide Leads, UniqueNames;
    assert m.path[0..] == m.path;
    if Resolve(base, m.path).Some? {
      LeadsIff(base, m.path, Resolve(base, m.path).value);
    }
    forall node | Leads(base, m.path, node) ensures Resolve(base, m.path) == Some(node) {
      LeadsIff(base, m.path, node);
    }
  }

  lemma ObstructsIff(q: Query, base: Node, path: Path)
    requires UniqueNames(base)
    ensures Obstructs(q, base, path) <==> Blocks(q, Frame([], base, 0), path)
  {
    hide Leads, UniqueNames, Resolve;
    assert path[0..] == path;
    if Resolve(base, path).Some? {
      LeadsIff(base, path, Resolve(base, path).value);
    }
    forall node | Leads(base, path, node) ensures Resolve(base, path) == Some(node) {
      LeadsIff(base, path, node);
    }
  }

  lemma InOrderSplit(matches: seq<Match>, i: nat)
    requires InOrder(matches) && i <= |matches|
    ensures InOrder(matches[..i])
    ensures forall m, n :: m in matches[..i] && n in matches && n !in matches[..i] ==> MatchBefore(m, n)
  {
    hide MatchBefore;
    forall m, n | m in matches[..i] && n in matches && n !in matches[..i] ensures MatchBefore(m, n) {
      assert matches == matches[..i] + matches[i..];
      var k :| 0 <= k < i && matches[k] == m;
      var l :| 0 <= l < |matches[i..]| && matches[i..][l] == n;
      assert matches[i + l] == n;
    }
  }

  /** A search that succeeds gives the page asked for. */
  lemma SearchedIsPage(q: Query, base: Node)
    requires base.Dir? && UniqueNames(base) && q.limit > 0 && Searched(q, Some(base)).Ok?
    ensures exists skipped :: IsPage(q, base, skipped, Searched(q, Some(base)).value)
  {
    hide Steps, Run, InOrder, MatchBefore, IsMatch, Matches, UniqueNames, Hits;
    var frame := Frame([], base, 0);
    var all, r := Hits(Steps(q, frame)), Searched(q, Some(base)).value;
    SearchedPage(q, base);
    StepsInOrder(q, frame);
    forall m ensures IsMatch(q, base, m) <==> m in all {
      IsMatchIff(q, base, m);
      StepsFind(q, frame, m);
      HitsAreSteps(Steps(q, frame), m);
    }
    var n := if q.offset <= |all| then q.offset else |all|;
    var skipped, end := all[..n], n + |r.matches|;
    assert skipped + r.matches == all[..end];
    InOrderSplit(all, end);
    assert end < |all| ==> r.truncated;
    assert IsPage(q, base, skipped, r);
  }

  lemma SearchFails(q: Query, base: Node)
    requires base.Dir? && UniqueNames(base) && q.limit > 0
    ensures var result := Searched(q, Some(base));
      && (result.Ok? && !result.value.truncated ==> forall path :: !Obstructs(q, base, path))
      && (result.Err? ==> result == Err(Io) && exists path :: Obstructs(q, base, path))
  {
    hide Steps, Run, Obstructs, Blocks, UniqueNames, Hits;
    var frame := Frame([], base, 0);
    var steps := Steps(q, frame);
    RunExact(q, [], 0, steps);
    if Fail in steps {
      var path := FailsFrom(q, frame);
      ObstructsIff(q, base, path);
    }
    forall path | Obstructs(q, base, path) ensures Fail in steps {
      ObstructsIff(q, base, path);
      FailsAt(q, frame, path);
    }
    if Searched(q, Some(base)).Ok? {
      SearchedPage(q, base);
    }
  }
}
