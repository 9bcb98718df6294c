/** A workspace as a finite tree, as both walks see it. */
module Tree {
  import opened Sorting
  import opened Wrappers

  /** What opening a non-directory entry yields; links are followed when opened. */
  datatype Content =
    | Unreadable
    | Binary
    | NotUtf8
    | Text(lines: seq<string>)

  datatype Node =
    | Leaf(size: nat, content: Content)
    | Dir(readable: bool, children: seq<Child>)

  /** `escapes`: the entry resolves outside the workspace; `statable`: its metadata can be read. */
  datatype Child = Child(name: string, node: Node, escapes: bool, statable: bool)

  type Path = seq<string>

  const SKIPPED: set<string> := {".git", "target", "node_modules", "dist", ".svelte-kit", "__pycache__"}

  predicate SkipDir(name: string) {
    name in SKIPPED
  }

  /** Both walks pass over the child without descending into it. */
  predicate Visible(c: Child) {
    !c.escapes && c.statable && !(c.node.Dir? && SkipDir(c.name))
  }

  /** Siblings have different names. */
  ghost predicate UniqueNames(node: Node) {
    node.Dir? ==>
      && (forall i, j :: 0 <= i < j < |node.children| ==> node.children[i].name != node.children[j].name)
      && forall c :: c in node.children ==> UniqueNames(c.node)
  }

  /** A directory waiting on the walk's stack. */
  datatype Frame = Frame(path: Path, dir: Node, level: nat)

  /** The visible directories among `kids`, in order, one level down. */
  function Subs(path: Path, kids: seq<Child>, level: nat): seq<Frame> {
    if kids == [] then []
    else if Visible(kids[0]) && kids[0].node.Dir?
    then [Frame(path + [kids[0].name], kids[0].node, level)] + Subs(path, kids[1..], level)
    else Subs(path, kids[1..], level)
  }

  lemma {:induction false} SubsAppend(path: Path, a: seq<Child>, b: seq<Child>, level: nat)
    ensures Subs(path, a + b, level) == Subs(path, a, level) + Subs(path, b, level)
  {
    if a == [] {
      assert a + b == b;
    } else {
      SubsAppend(path, a[1..], b, level);
      assert (a + b)[1..] == a[1..] + b;
    }
  }

  predicate SubOf(path: Path, level: nat, c: Child, frame: Frame) {
    Visible(c) && c.node.Dir? && frame == Frame(path + [c.name], c.node, level)
  }

  lemma {:induction false} SubFrom(path: Path, kids: seq<Child>, level: nat, frame: Frame) returns (c: Child)
    requires frame in Subs(path, kids, level)
    ensures c in kids && SubOf(path, level, c, frame)
  {
    c := kids[0];
    if !SubOf(path, level, c, frame) {
      c := SubFrom(path, kids[1..], level, frame);
    }
  }

  lemma {:induction false} SubIn(path: Path, kids: seq<Child>, level: nat, c: Child, frame: Frame)
    requires c in kids && SubOf(path, level, c, frame)
    ensures frame in Subs(path, kids, level)
  {
    if c != kids[0] {
      assert kids == [kids[0]] + kids[1..];
      SubIn(path, kids[1..], level, c, frame);
    }
  }

  lemma SubsElements(path: Path, kids: seq<Child>, level: nat)
    ensures forall f :: f in Subs(path, kids, level) ==> exists c :: c in kids && SubOf(path, level, c, f)
    ensures forall c, f :: c in kids && SubOf(path, level, c, f) ==> f in Subs(path, kids, level)
  {
    hide SubOf, Subs;
    forall f | f in Subs(path, kids, level) ensures exists c :: c in kids && SubOf(path, level, c, f) {
      var c := SubFrom(path, kids, level, f);
    }
    forall c, f | c in kids && SubOf(path, level, c, f) ensures f in Subs(path, kids, level) {
      SubIn(path, kids, level, c, f);
    }
  }

  /** Siblings in name order, `children.sort()`. */
  predicate NameLe(a: Child, b: Child) {
    LexLe(a.name, b.name)
  }

  lemma NameOrder()
    ensures Comparator(NameLe)
  {
    forall x: Child, y: Child ensures NameLe(x, y) || NameLe(y, x) {
      LexTotal(x.name, y.name);
    }
    forall x: Child, y: Child, z: Child | NameLe(x, y) && NameLe(y, z) ensures NameLe(x, z) {
      LexTransitive(x.name, y.name, z.name);
    }
  }

  /** Siblings by folded name, then by name; `fold` is the lower-casing of names. */
  predicate FoldedLe(fold: string -> string, a: Child, b: Child) {
    if fold(a.name) == fold(b.name) then LexLe(a.name, b.name) else LexLe(fold(a.name), fold(b.name))
  }

  function Folded(fold: string -> string): (Child, Child) -> bool {
    (a, b) => FoldedLe(fold, a, b)
  }

  lemma FoldedOrder(fold: string -> string)
    ensures Comparator(Folded(fold))
  {
    forall x: Child, y: Child ensures FoldedLe(fold, x, y) || FoldedLe(fold, y, x) {
      LexTotal(x.name, y.name);
      LexTotal(fold(x.name), fold(y.name));
    }
    forall x: Child, y: Child, z: Child | FoldedLe(fold, x, y) && FoldedLe(fold, y, z) ensures FoldedLe(fold, x, z) {
      FoldedTransitive(fold, x, y, z);
    }
  }

  lemma FoldedTransitive(fold: string -> string, x: Child, y: Child, z: Child)
    requires FoldedLe(fold, x, y) && FoldedLe(fold, y, z)
    ensures FoldedLe(fold, x, z)
  {
    var a, b, c := fold(x.name), fold(y.name), fold(z.name);
    if a == b == c {
      LexTransitive(x.name, y.name, z.name);
    } else if a != b && b != c {
      LexTransitive(a, b, c);
      LexTotal(a, b);
    }
  }

  // ---------------------------------------- trees up to the enumeration order

  predicate SameSlot(c: Child, d: Child) {
    c.name == d.name && c.escapes == d.escapes && c.statable == d.statable
  }

  /** The same tree, its directories enumerated in another order, at any level. */
  ghost predicate Reordered(a: Node, b: Node)
    decreases a, 1
  {
    if a.Leaf? then b == a
    else b.Dir? && b.readable == a.readable && HasAllOf(a, b) && HasOnlyOf(a, b)
  }

  ghost predicate HasAllOf(a: Node, b: Node)
    requires a.Dir? && b.Dir?
    decreases a, 0
  {
    forall c :: c in a.children ==> exists d :: d in b.children && SameSlot(c, d) && Reordered(c.node, d.node)
  }

  ghost predicate HasOnlyOf(a: Node, b: Node)
    requires a.Dir? && b.Dir?
    decreases a, 0
  {
    forall d :: d in b.children ==> exists c :: c in a.children && SameSlot(c, d) && Reordered(c.node, d.node)
  }

  ghost predicate Twins(c: Child, d: Child) {
    SameSlot(c, d) && Reordered(c.node, d.node)
  }

  ghost predicate Matched(a: seq<Child>, b: seq<Child>) {
    && (forall c :: c in a ==> exists d :: d in b && Twins(c, d))
    && forall d :: d in b ==> exists c :: c in a && Twins(c, d)
  }

  ghost predicate Paired(a: seq<Child>, b: seq<Child>) {
    |a| == |b| && forall i :: 0 <= i < |a| ==> Twins(a[i], b[i])
  }

  ghost predicate DistinctNames(kids: seq<Child>) {
    forall i, j :: 0 <= i < j < |kids| ==> kids[i].name != kids[j].name
  }

  lemma {:induction false} InsertNames(le: (Child, Child) -> bool, x: Child, s: seq<Child>)
    requires DistinctNames(s) && forall c :: c in s ==> c.name != x.name
    ensures DistinctNames(Insert(le, x, s))
  {
    if s != [] && !le(x, s[0]) {
      InsertNames(le, x, s[1..]);
      var rest := Insert(le, x, s[1..]);
      forall c | c in rest ensures c.name != s[0].name {
        assert s == [s[0]] + s[1..];
        assert c in multiset(rest);
      }
    }
  }

  lemma {:induction false} SortNames(le: (Child, Child) -> bool, s: seq<Child>)
    requires DistinctNames(s)
    ensures DistinctNames(Sort(le, s))
  {
    if s != [] {
      SortNames(le, s[1..]);
      SortElements(le, s[1..]);
      InsertNames(le, s[0], Sort(le, s[1..]));
    }
  }

  lemma IsTwins(c: Child, d: Child)
    requires SameSlot(c, d) && Reordered(c.node, d.node)
    ensures Twins(c, d)
  {
    hide Reordered;
  }

  lemma ReorderedForth(a: Node, b: Node, c: Child) returns (d: Child)
    requires a.Dir? && Reordered(a, b) && c in a.children
    ensures b.Dir? && b.readable == a.readable && d in b.children && Twins(c, d)
  {
    hide SameSlot, Twins, HasOnlyOf;
    d :| d in b.children && SameSlot(c, d) && Reordered(c.node, d.node);
    IsTwins(c, d);
  }

  lemma ReorderedBack(a: Node, b: Node, d: Child) returns (c: Child)
    requires a.Dir? && Reordered(a, b) && b.Dir? && d in b.children
    ensures c in a.children && Twins(c, d)
  {
    hide SameSlot, Twins, HasAllOf;
    c :| c in a.children && SameSlot(c, d) && Reordered(c.node, d.node);
    IsTwins(c, d);
  }

  lemma ReorderedMatched(a: Node, b: Node)
    requires Reordered(a, b) && a.Dir?
    ensures b.Dir? && b.readable == a.readable && Matched(a.children, b.children)
  {
    hide Twins;
    ReorderedKind(a, b);
    hide Reordered;
    forall c | c in a.children ensures exists d :: d in b.children && Twins(c, d) {
      var d := ReorderedForth(a, b, c);
    }
    forall d | d in b.children ensures exists c :: c in a.children && Twins(c, d) {
      var c := ReorderedBack(a, b, d);
    }
  }

  lemma ReorderedKind(a: Node, b: Node)
    requires Reordered(a, b)
    ensures a.Dir? <==> b.Dir?
    ensures a.Dir? ==> b.readable == a.readable
    ensures a.Leaf? ==> a == b
  {
  }

  lemma ChildrenDistinct(dir: Node)
    requires UniqueNames(dir) && dir.Dir?
    ensures DistinctNames(dir.children)
  {
  }

  lemma Forth(a: seq<Child>, b: seq<Child>, c: Child) returns (d: Child)
    requires Matched(a, b) && c in a
    ensures d in b && Twins(c, d)
  {
    hide Twins;
    d :| d in b && Twins(c, d);
  }

  lemma Back(a: seq<Child>, b: seq<Child>, d: Child) returns (c: Child)
    requires Matched(a, b) && d in b
    ensures c in a && Twins(c, d)
  {
    hide Twins;
    c :| c in a && Twins(c, d);
  }

  lemma TwinNames(c: Child, d: Child)
    requires Twins(c, d)
    ensures SameSlot(c, d)
  {
  }

  /** The order looks at names only, and tells different names apart. */
  ghost predicate ByName(le: (Child, Child) -> bool) {
    && Comparator(le)
    && (forall x, y :: le(x, y) && le(y, x) ==> x.name == y.name)
    && forall x: Child, y: Child, z: Child :: x.name == y.name ==> (le(x, z) <==> le(y, z)) && (le(z, x) <==> le(z, y))
  }

  lemma NameByName()
    ensures ByName(NameLe)
  {
    NameOrder();
    forall x: Child, y: Child ensures NameLe(x, y) && NameLe(y, x) ==> x.name == y.name {
      LexTotal(x.name, y.name);
    }
  }

  lemma FoldedByName(fold: string -> string)
    ensures ByName(Folded(fold))
  {
    FoldedOrder(fold);
    forall x: Child, y: Child ensures FoldedLe(fold, x, y) && FoldedLe(fold, y, x) ==> x.name == y.name {
      LexTotal(x.name, y.name);
      LexTotal(fold(x.name), fold(y.name));
    }
  }

  lemma SameHeads(le: (Child, Child) -> bool, a: seq<Child>, b: seq<Child>)
    requires ByName(le) && Sorted(le, a) && Sorted(le, b) && DistinctNames(b)
    requires Matched(a, b) && a != []
    ensures b != [] && Twins(a[0], b[0])
  {
    hide Twins, Matched;
    var d := Forth(a, b, a[0]);
    var c := Back(a, b, b[0]);
    TwinNames(a[0], d);
    TwinNames(c, b[0]);
    assert le(b[0], b[0]) && le(a[0], a[0]);
    assert le(a[0], c) && le(b[0], d);
    assert le(a[0], b[0]) && le(b[0], a[0]);
  }

  lemma MatchedRest(a: seq<Child>, b: seq<Child>)
    requires Matched(a, b) && DistinctNames(a) && DistinctNames(b)
    requires a != [] && b != [] && Twins(a[0], b[0])
    ensures Matched(a[1..], b[1..])
  {
    hide Twins;
    TwinNames(a[0], b[0]);
    forall c | c in a[1..] ensures exists d :: d in b[1..] && Twins(c, d) {
      var d := Forth(a, b, c);
      TwinNames(c, d);
      InRest(b, d, a[0].name, c.name);
      RestNames(a, c);
    }
    forall d | d in b[1..] ensures exists c :: c in a[1..] && Twins(c, d) {
      var c := Back(a, b, d);
      TwinNames(c, d);
      InRest(a, c, b[0].name, d.name);
      RestNames(b, d);
    }
  }

  lemma RestNames(s: seq<Child>, c: Child)
    requires DistinctNames(s) && s != [] && c in s[1..]
    ensures c.name != s[0].name
  {
  }

  lemma InRest(s: seq<Child>, c: Child, first: string, name: string)
    requires s != [] && c in s && s[0].name == first && c.name == name
    ensures name != first ==> c in s[1..]
  {
    assert s == [s[0]] + s[1..];
  }

  lemma {:induction false} MatchedSorted(le: (Child, Child) -> bool, a: seq<Child>, b: seq<Child>)
    requires ByName(le) && Sorted(le, a) && Sorted(le, b) && DistinctNames(a) && DistinctNames(b)
    requires Matched(a, b)
    ensures Paired(a, b)
  {
    hide Twins, ByName, Matched;
    if a == [] {
      NothingMatched(b);
    } else {
      SameHeads(le, a, b);
      MatchedRest(a, b);
      MatchedSorted(le, a[1..], b[1..]);
      assert forall i :: 0 < i < |a| ==> a[i] == a[1..][i - 1] && b[i] == b[1..][i - 1];
    }
  }

  lemma NothingMatched(b: seq<Child>)
    requires Matched([], b)
    ensures b == []
  {
    if b != [] {
      var c := Back([], b, b[0]);
    }
  }

  /** Sorted by name, two enumerations of the same directory pair up. */
  lemma SortedPaired(le: (Child, Child) -> bool, a: seq<Child>, b: seq<Child>)
    requires ByName(le) && DistinctNames(a) && DistinctNames(b) && Matched(a, b)
    ensures Paired(Sort(le, a), Sort(le, b))
  {
    hide Twins, Sort;
    SortSorted(le, a);
    SortSorted(le, b);
    SortNames(le, a);
    SortNames(le, b);
    SortElements(le, a);
    SortElements(le, b);
    MatchedSorted(le, Sort(le, a), Sort(le, b));
  }

  lemma ChildrenUnique(dir: Node, kids: seq<Child>)
    requires UniqueNames(dir) && dir.Dir? && forall c :: c in kids ==> c in dir.children
    ensures forall c :: c in kids ==> UniqueNames(c.node)
  {
  }

  lemma PairedRest(a: seq<Child>, b: seq<Child>)
    requires Paired(a, b) && a != []
    ensures Paired(a[1..], b[1..])
  {
  }

  ghost predicate TwinFrames(f: Frame, g: Frame) {
    f.path == g.path && f.level == g.level && Reordered(f.dir, g.dir) && UniqueNames(f.dir) && UniqueNames(g.dir)
  }

  ghost predicate PairedFrames(x: seq<Frame>, y: seq<Frame>) {
    |x| == |y| && forall i :: 0 <= i < |x| ==> TwinFrames(x[i], y[i])
  }

  lemma TwinChildren(path: Path, c: Child, d: Child, level: nat)
    requires Twins(c, d) && UniqueNames(c.node) && UniqueNames(d.node)
    ensures (Visible(c) <==> Visible(d)) && (c.node.Dir? <==> d.node.Dir?)
    ensures TwinFrames(Frame(path + [c.name], c.node, level), Frame(path + [d.name], d.node, level))
    ensures c.node.Leaf? ==> c == d
  {
    hide UniqueNames;
    ReorderedKind(c.node, d.node);
  }

  lemma PairedAppend(x: seq<Frame>, y: seq<Frame>, f: Frame, g: Frame)
    requires TwinFrames(f, g) && PairedFrames(x, y)
    ensures PairedFrames([f] + x, [g] + y)
  {
    hide TwinFrames;
  }

  /** The subdirectories of paired children. */
  lemma {:induction false} SubsPaired(path: Path, a: seq<Child>, b: seq<Child>, level: nat)
    requires Paired(a, b)
    requires (forall c :: c in a ==> UniqueNames(c.node)) && forall d :: d in b ==> UniqueNames(d.node)
    ensures PairedFrames(Subs(path, a, level), Subs(path, b, level))
  {
    hide UniqueNames, Twins, TwinFrames, Visible;
    if a != [] {
      assert Twins(a[0], b[0]) && a[0] in a && b[0] in b;
      PairedRest(a, b);
      SubsPaired(path, a[1..], b[1..], level);
      TwinChildren(path, a[0], b[0], level);
      if Visible(a[0]) && a[0].node.Dir? {
        PairedAppend(Subs(path, a[1..], level), Subs(path, b[1..], level),
                     Frame(path + [a[0].name], a[0].node, level), Frame(path + [b[0].name], b[0].node, level));
      }
    }
  }

  /** The node a path of visible entries leads to; every directory crossed is readable. */
  function Resolve(dir: Node, path: Path): Option<Node>
    decreases path
  {
    if path == [] then Some(dir)
    else if !dir.Dir? || !dir.readable then None
    else
      var hits := Named(dir.children, path[0]);
      if hits == [] then None else Resolve(hits[0].node, path[1..])
  }

  /** The visible children of that name: one at most when names are unique. */
  function Named(kids: seq<Child>, name: string): (hits: seq<Child>)
    ensures forall c :: c in hits <==> c in kids && Visible(c) && c.name == name
  {
    if kids == [] then []
    else if Visible(kids[0]) && kids[0].name == name then [kids[0]] + Named(kids[1..], name)
    else Named(kids[1..], name)
  }

  lemma NamedUnique(dir: Node, name: string, c: Child)
    requires UniqueNames(dir) && dir.Dir?
    requires c in dir.children && Visible(c) && c.name == name
    ensures Named(dir.children, name)[0] == c
  {
    var hit := Named(dir.children, name)[0];
    assert hit in Named(dir.children, name);
    var i :| 0 <= i < |dir.children| && dir.children[i] == c;
    var j :| 0 <= j < |dir.children| && dir.children[j] == hit;
    assert i == j;
  }

  /**
   Where a path leads a walk: through readable directories, by entries that do not
   leave the workspace and can be looked at, past none of the six skipped directories.
   */
  ghost predicate Leads(dir: Node, path: Path, node: Node)
    decreases path
  {
    if path == [] then node == dir
    else dir.Dir? && dir.readable && exists c :: c in dir.children && Passes(c, path[0]) && Leads(c.node, path[1..], node)
  }

  predicate Passes(c: Child, name: string) {
    && c.name == name && !c.escapes && c.statable
    && (c.node.Dir? ==> name !in {".git", "target", "node_modules", "dist", ".svelte-kit", "__pycache__"})
  }

  lemma {:induction false} LeadsIff(dir: Node, path: Path, node: Node)
    requires UniqueNames(dir)
    ensures Leads(dir, path, node) <==> Resolve(dir, path) == Some(node)
    decreases path
  {
    hide Named;
    if path != [] && dir.Dir? && dir.readable {
      var hits := Named(dir.children, path[0]);
      assert forall c :: Passes(c, path[0]) <==> Visible(c) && c.name == path[0];
      if c :| c in dir.children && Passes(c, path[0]) && Leads(c.node, path[1..], node) {
        NamedUnique(dir, path[0], c);
        LeadsIff(c.node, path[1..], node);
      }
      if hits != [] {
        var c := hits[0];
        assert c in hits;
        LeadsIff(c.node, path[1..], node);
      }
    }
  }
}
