/**
 The copy itself: a recursion that creates directories and files one by one on a
 live filesystem, any step of which may fail, and the clean-up after a failure.
 */
module CopyTree {
  import opened Wrappers
  import CopyPlan

  type Path = seq<string>

  /** A link holds the path it leads to, which may go through links again. */
  datatype Entry = File(bytes: seq<int>) | Dir | Link(to: Path)

  /** Every entry of the machine under the path where it really is; the workspace is a part of it. */
  type Files = map<Path, Entry>

  /** How many links the operating system follows for one path. */
  const MAX_LINKS: nat := 40

  // -------------------------------------------------------------- vocabulary

  /** Every entry but the root lies in a directory. */
  ghost predicate WellFormed(m: Files) {
    && [] in m && m[[]] == Dir
    && forall p :: p in m && p != [] ==> p[..|p| - 1] in m && m[p[..|p| - 1]] == Dir
  }

  /**
   Where a path leads, links followed, the last part included: an entry that is no
   link, or a place in a directory where nothing is.
   */
  function Real(m: Files, at: Path, rest: Path, links: nat): Option<Path>
    decreases links, |rest|
  {
    if rest == [] then Some(at)
    else
      var next := at + [rest[0]];
      if next in m && m[next].Link? then
        if links == 0 then None else Real(m, [], m[next].to + rest[1..], links - 1)
      else if |rest| == 1 then Some(next)
      else if next in m && m[next] == Dir then Real(m, next, rest[1..], links)
      else None
  }

  /** `canonicalize`, for what exists, and where opening a new file would create it. */
  function Canonical(m: Files, p: Path): Option<Path> {
    Real(m, [], p, MAX_LINKS)
  }

  /** `path.parent()`. */
  function Up(p: Path): Path
    requires p != []
  {
    p[..|p| - 1]
  }

  /** `path.exists()`. */
  predicate Exists(m: Files, p: Path) {
    var r := Canonical(m, p);
    r.Some? && r.value in m
  }

  /** The entry a path names itself, only links before the last part followed. */
  function Place(m: Files, p: Path): Option<Path> {
    if p == [] then Some([])
    else
      match Canonical(m, Up(p))
      case None => None
      case Some(dir) => if dir in m && m[dir] == Dir then Some(dir + [p[|p| - 1]]) else None
  }

  /** Nothing outside the subtree of `root` differs. */
  ghost predicate SameOutside(before: Files, now: Files, root: Path) {
    forall p :: !(root <= p) ==> (p in now <==> p in before) && (p in now ==> now[p] == before[p])
  }

  /** The path of `p`, which lies under `target`, moved under `source`. */
  function Twin(p: Path, target: Path, source: Path): Path
    requires target <= p
  {
    source + p[|target|..]
  }

  /** Under `target`: the directory itself and copies of the named children of `source`. */
  ghost predicate CopiedPart(before: Files, now: Files, source: Path, target: Path, names: set<string>) {
    forall p :: target <= p ==>
      && (p in now <==> p == target || (p[|target|] in names && Twin(p, target, source) in before))
      && (p in now ==> now[p] == if p == target then Dir else if Twin(p, target, source) in before then before[Twin(p, target, source)] else Dir)
  }

  /** The subtree at `target` is the old subtree at `source`. */
  ghost predicate Copied(before: Files, now: Files, source: Path, target: Path) {
    forall p :: target <= p ==>
      && (p in now <==> Twin(p, target, source) in before)
      && (p in now && Twin(p, target, source) in before ==> now[p] == before[Twin(p, target, source)])
  }

  /** The path is free and lies in a directory. */
  predicate Free(m: Files, p: Path) {
    p != [] && p !in m && p[..|p| - 1] in m && m[p[..|p| - 1]] == Dir
  }

  ghost predicate NoLinks(m: Files, root: Path) {
    forall p :: p in m && root <= p ==> !m[p].Link?
  }

  /** The operating system's limit on the length of a path, here in parts. */
  ghost predicate Bounded(m: Files, limit: nat) {
    forall p :: p in m ==> |p| <= limit
  }

  /** Every path under `source` has room under `target`. */
  ghost predicate Fits(m: Files, source: Path, target: Path, limit: nat) {
    forall p :: p in m && source <= p ==> |p| - |source| + |target| <= limit
  }

  function ChildNames(m: Files, dir: Path): set<string> {
    set p | p in m && dir < p && |p| == |dir| + 1 :: p[|dir|]
  }

  // ------------------------------------------------------------------ facts

  lemma {:induction false} PrefixClosed(m: Files, p: Path, q: Path)
    requires WellFormed(m) && q in m && p <= q
    ensures p in m && (p < q ==> m[p] == Dir)
    decreases |q|
  {
    if p != q {
      var parent := q[..|q| - 1];
      assert p <= parent && m[parent] == Dir;
      assert |p| == |parent| ==> p == parent;
      PrefixClosed(m, p, parent);
    }
  }

  /** Paths that neither contain the other have disjoint subtrees. */
  lemma PrefixesCompare(a: Path, b: Path, p: Path)
    requires a <= p && b <= p
    ensures a <= b || b <= a
  {
    if |a| <= |b| {
      assert a == b[..|a|];
    } else {
      assert b == a[..|b|];
    }
  }

  /** Every path below a directory passes through one of its children. */
  lemma ThroughChild(m: Files, dir: Path, p: Path)
    requires WellFormed(m) && p in m && dir < p
    ensures p[|dir|] in ChildNames(m, dir) && dir + [p[|dir|]] <= p && dir + [p[|dir|]] in m
  {
    var c := dir + [p[|dir|]];
    assert c == p[..|dir| + 1];
    PrefixClosed(m, c, p);
  }

  lemma ChildIsEntry(m: Files, dir: Path, name: string)
    requires name in ChildNames(m, dir)
    ensures dir + [name] in m
  {
    var p :| p in m && dir < p && |p| == |dir| + 1 && p[|dir|] == name;
    assert p == dir + [name];
  }

  // --------------------------------------------------------- request paths

  /** A request path as its `/`-separated parts. */
  type Raw = seq<string>

  /** Joining to the root drops empty parts and single dots. */
  function Norm(raw: Raw): Path {
    if raw == [] then []
    else if raw[0] == "" || raw[0] == "." then Norm(raw[1..])
    else [raw[0]] + Norm(raw[1..])
  }

  /** `validate_fs_path`: absolute paths and parent parts are refused. */
  predicate Escapes(raw: Raw) {
    ".." in raw || (|raw| > 1 && raw[0] == "")
  }

  predicate Plain(raw: Raw) {
    forall part :: part in raw ==> part != "" && part != "."
  }

  /** The textual test: the destination is the source, or starts with the source and a slash. */
  predicate GuardRejects(from: Raw, to: Raw) {
    from == to || from < to
  }

  lemma {:induction false} NormPlain(raw: Raw)
    requires Plain(raw)
    ensures Norm(raw) == raw
  {
    if raw != [] {
      assert raw[0] in raw && forall part :: part in raw[1..] ==> part in raw;
      NormPlain(raw[1..]);
    }
  }

  lemma {:induction false} NormConcat(a: Raw, b: Raw)
    ensures Norm(a + b) == Norm(a) + Norm(b)
  {
    if a == [] {
      assert a + b == b;
    } else {
      NormConcat(a[1..], b);
      assert (a + b)[1..] == a[1..] + b;
    }
  }

  /** The first `k` parts of the destination already name this path. */
  predicate NamedBy(to: Raw, path: Path, k: nat) {
    k <= |to| && Norm(to[..k]) == path
  }

  lemma {:induction false} PrefixNamed(to: Raw, path: Path) returns (k: nat)
    requires path <= Norm(to)
    ensures NamedBy(to, path, k)
  {
    if path == [] {
      assert to[..0] == [];
      k := 0;
    } else if to[0] == "" || to[0] == "." {
      var rest := PrefixNamed(to[1..], path);
      k := rest + 1;
      assert to[..k][1..] == to[1..][..rest];
    } else {
      assert path == [to[0]] + path[1..];
      assert Norm(to)[1..] == Norm(to[1..]);
      var rest := PrefixNamed(to[1..], path[1..]);
      k := rest + 1;
      assert to[..k][1..] == to[1..][..rest];
    }
  }

  /** By names alone, a destination lies in the source iff some beginning of it names the source. */
  lemma NestedIffNamed(from: Raw, to: Raw)
    ensures Norm(from) <= Norm(to) <==> exists k: nat :: NamedBy(to, Norm(from), k)
  {
    hide Norm;
    if Norm(from) <= Norm(to) {
      var k := PrefixNamed(to, Norm(from));
    }
    if k: nat :| NamedBy(to, Norm(from), k) {
      assert to == to[..k] + to[k..];
      NormConcat(to[..k], to[k..]);
      assert Norm(from) <= Norm(to);
    }
  }

  /** No link among the directories on the way to a path. */
  ghost predicate Straight(m: Files, p: Path) {
    forall k :: 0 < k < |p| && p[..k] in m ==> !m[p[..k]].Link?
  }

  /** Without links on the way, and without empty and dot parts, the textual test says where the destination is. */
  lemma GuardExactOnPlain(m: Files, root: Path, from: Raw, to: Raw)
    requires Plain(from) && Plain(to)
    requires Straight(m, root + Norm(from)) && Straight(m, root + Norm(to))
    requires Source(m, root, from).Some? && Target(m, root, to).Some?
    ensures GuardRejects(from, to) <==> Source(m, root, from).value <= Target(m, root, to).value
  {
    NormPlain(from);
    NormPlain(to);
    StraightPlace(m, root + from);
    StraightPlace(m, root + to);
    assert from <= to && |from| == |to| ==> from == to;
    SamePrefix(root, from, to);
  }

  lemma SamePrefix(root: Path, a: Path, b: Path)
    ensures root + a <= root + b <==> a <= b
  {
    if root + a <= root + b {
      assert a == (root + a)[|root|..] && (root + b)[|root|..] == b;
      assert forall i :: 0 <= i < |a| ==> a[i] == (root + a)[|root| + i] && b[i] == (root + b)[|root| + i];
    }
  }

  /**
   What the textual test rejects is nested, links or not, or holds a link itself. So
   it turns no directory away that the scan would let pass.
   */
  lemma GuardCostsNoCopy(m: Files, root: Path, from: Raw, to: Raw)
    requires WellFormed(m) && GuardRejects(from, to)
    requires Source(m, root, from).Some? && Target(m, root, to).Some?
    requires Source(m, root, from).value in m && m[Source(m, root, from).value] == Dir
    requires NoLinks(m, Source(m, root, from).value)
    ensures Source(m, root, from).value <= Target(m, root, to).value
  {
    hide Real, NoLinks, Norm, WellFormed, Place, Canonical;
    var source := Source(m, root, from).value;
    var a, b := root + Norm(from), root + Norm(to);
    SourceNotLink(m, source);
    SourceIsReal(m, a, source);
    assert to == from + to[|from|..];
    NormConcat(from, to[|from|..]);
    var rest := Norm(to[|from|..]);
    assert b == a + rest;
    GoesOnInside(m, a, rest, source);
  }

  lemma SourceIsReal(m: Files, p: Path, source: Path)
    requires WellFormed(m) && Place(m, p) == Some(source) && source in m && !m[source].Link?
    ensures Real(m, [], p, MAX_LINKS) == Some(source)
  {
    hide Real, WellFormed;
    PlaceIsReal(m, p);
  }

  lemma GoesOnInside(m: Files, a: Path, rest: Path, dir: Path)
    requires Real(m, [], a, MAX_LINKS) == Some(dir) && Place(m, a) == Some(dir)
    requires dir in m && m[dir] == Dir && NoLinks(m, dir) && Place(m, a + rest).Some?
    ensures dir <= Place(m, a + rest).value
  {
    hide Real, NoLinks;
    if rest == [] {
      assert a + rest == a;
    } else {
      var b := a + rest;
      assert b[..|b| - 1] == a + rest[..|rest| - 1];
      RealInside(m, [], a, rest[..|rest| - 1], MAX_LINKS, dir);
    }
  }

  lemma SourceNotLink(m: Files, p: Path)
    requires p in m && NoLinks(m, p)
    ensures !m[p].Link?
  {
  }

  /** Whether a destination is nested shows in the canonical path of the directory it goes to. */
  lemma NestedIffParentInside(m: Files, root: Path, from: Raw, to: Raw)
    requires Source(m, root, from).Some? && Target(m, root, to).Some?
    requires Source(m, root, from).value in m && Target(m, root, to).value !in m && root + Norm(to) != []
    ensures Canonical(m, Up(root + Norm(to))).Some?
    ensures Source(m, root, from).value <= Target(m, root, to).value <==> Source(m, root, from).value <= Canonical(m, Up(root + Norm(to))).value
  {
    hide Norm, Real;
    var source, target := Source(m, root, from).value, Target(m, root, to).value;
    assert |source| == |target| && source <= target ==> source == target;
    assert source <= target && |source| < |target| ==> source <= target[..|target| - 1];
  }

  /**
   For a directory the scan would let pass, the textual test is right exactly when the
   destination is spelled from the source, or the directory it goes to does not really
   lie in the source.
   */
  lemma GuardRightIff(m: Files, root: Path, from: Raw, to: Raw)
    requires WellFormed(m) && root + Norm(to) != []
    requires Source(m, root, from).Some? && Target(m, root, to).Some? && Target(m, root, to).value !in m
    requires Source(m, root, from).value in m && m[Source(m, root, from).value] == Dir && NoLinks(m, Source(m, root, from).value)
    ensures Canonical(m, Up(root + Norm(to))).Some?
    ensures (GuardRejects(from, to) <==> Source(m, root, from).value <= Target(m, root, to).value) <==>
            from <= to || !(Source(m, root, from).value <= Canonical(m, Up(root + Norm(to))).value)
  {
    hide Norm, Place, Canonical, NoLinks, WellFormed;
    NestedIffParentInside(m, root, from, to);
    assert from <= to && |from| == |to| ==> from == to;
    if GuardRejects(from, to) {
      GuardCostsNoCopy(m, root, from, to);
    }
  }

  /** Spelled otherwise, a directory can be asked to be copied into itself. */
  lemma DottedNestingMissed()
    ensures !GuardRejects([".", "a"], ["a", "b"])
    ensures Norm([".", "a"]) < Norm(["a", "b"])
    ensures !Escapes([".", "a"]) && !Escapes(["a", "b"])
  {
    NormPlain(["a", "b"]);
    assert [".", "a"][1..] == ["a"];
    NormPlain(["a"]);
    assert [".", "a"][0] == "." && ["a", "b"][0] == "a" && "."[0] != "a"[0];
    assert forall part :: part in [".", "a", "a", "b"] ==> |part| == 1;
  }

  /** What a request's source names, and its destination. */
  function Source(m: Files, root: Path, from: Raw): Option<Path> {
    Place(m, root + Norm(from))
  }

  function Target(m: Files, root: Path, to: Raw): Option<Path> {
    Place(m, root + Norm(to))
  }

  /** Where the copy is written: a directory at the destination itself, a file where a link there leads. */
  function Lands(m: Files, root: Path, from: Raw, to: Raw): Option<Path> {
    var source := Source(m, root, from);
    if source.Some? && source.value in m && m[source.value] == Dir then Target(m, root, to)
    else Canonical(m, root + Norm(to))
  }

  datatype CopyError =
    | EmptyPath
    | SamePath
    | IntoItself
    | PathEscape
    | NotFound
    | LinkRefused
    | AlreadyExists
    | ParentMissing
    | ParentNotDirectory
    | TooLarge
    | Io

  /** `canonical_root`. */
  function CanonicalRoot(m: Files, root: Path): Path {
    if Exists(m, root) then Canonical(m, root).value else root
  }

  /** `enforce_symlink_containment`: what is there, or else its directory, must really lie in the workspace. */
  predicate Contained(m: Files, root: Path, p: Path) {
    if Exists(m, p) then CanonicalRoot(m, root) <= Canonical(m, p).value
    else if p != [] && Exists(m, Up(p)) then CanonicalRoot(m, root) <= Canonical(m, Up(p)).value
    else true
  }

  function ScanError(e: CopyPlan.PlanError): CopyError {
    match e
    case LinkRefused => CopyError.LinkRefused
    case Unreadable => Io
    case _ => TooLarge
  }

  /** What the request is refused for, before anything is written. */
  function Refusal(m: Files, root: Path, from: Raw, to: Raw, scan: CopyPlan.Item): Option<CopyError>
    requires WellFormed(m) && scan.Folder?
  {
    if from == [""] || to == [""] then Some(EmptyPath)
    else if from == to then Some(SamePath)
    else if from < to then Some(IntoItself)
    else if Escapes(from) || Escapes(to) then Some(PathEscape)
    else PlaceRefusal(m, root, root + Norm(from), root + Norm(to), scan)
  }

  function PlaceRefusal(m: Files, root: Path, a: Path, b: Path, scan: CopyPlan.Item): Option<CopyError>
    requires WellFormed(m) && scan.Folder?
  {
    var source := Place(m, a);
    if !Contained(m, root, a) || !Contained(m, root, b) then Some(PathEscape)
    else if source.None? || source.value !in m then Some(NotFound)
    else if m[source.value].Link? then Some(LinkRefused)
    else if Exists(m, b) then Some(AlreadyExists)
    else if !Exists(m, Up(b)) then Some(ParentMissing)
    else if m[Canonical(m, Up(b)).value] != Dir then Some(ParentNotDirectory)
    else if m[source.value] == Dir && CopyPlan.Admit(scan).Err? then Some(ScanError(CopyPlan.Admit(scan).error))
    else if m[source.value].File? && |m[source.value].bytes| > CopyPlan.MAX_FILE_BYTES then Some(TooLarge)
    else None
  }

  /** Both paths given, the destination not spelled from the source, neither with a parent part or absolute. */
  predicate WellSpelled(from: Raw, to: Raw) {
    && from != [""] && to != [""] && !(from <= to)
    && ".." !in from && ".." !in to
    && (|from| > 1 ==> from[0] != "") && (|to| > 1 ==> to[0] != "")
  }

  /**
   The two places are in order: the source there, and no link; the destination not
   there, its directory there; both really inside.
   */
  ghost predicate PlacesInOrder(m: Files, root: Path, from: Raw, to: Raw) {
    var a, b := root + Norm(from), root + Norm(to);
    var source, spot := Place(m, a), Canonical(m, b);
    && source.Some? && source.value in m && !m[source.value].Link?
    && (spot.Some? ==> spot.value !in m)
    && b != []
    && var parent := Canonical(m, Up(b));
       && parent.Some? && parent.value in m && m[parent.value] == Dir
       && CanonicalRoot(m, root) <= source.value && CanonicalRoot(m, root) <= parent.value
  }

  /** What there is to copy is within the limits: 2 MiB for a file, 500 files and 16 MiB for a directory. */
  ghost predicate WithinLimits(m: Files, source: Path, scan: CopyPlan.Item)
    requires source in m && scan.Folder?
  {
    && (m[source].File? ==> |m[source].bytes| <= 2 * 1024 * 1024)
    && (m[source] == Dir ==>
          && CopyPlan.Copyable(scan, 0)
          && CopyPlan.Total(scan).files <= 500 && CopyPlan.Total(scan).totalBytes <= 16 * 1024 * 1024)
  }

  ghost predicate Acceptable(m: Files, root: Path, from: Raw, to: Raw, scan: CopyPlan.Item)
    requires scan.Folder?
  {
    WellSpelled(from, to) && PlacesInOrder(m, root, from, to) && WithinLimits(m, Source(m, root, from).value, scan)
  }

  /** What is wrong with the spelling of the two paths, first things first. */
  lemma SpellingErrors(m: Files, root: Path, from: Raw, to: Raw, scan: CopyPlan.Item)
    requires WellFormed(m) && scan.Folder?
    ensures from == [""] || to == [""] ==> Refusal(m, root, from, to, scan) == Some(EmptyPath)
    ensures from != [""] && from == to ==> Refusal(m, root, from, to, scan) == Some(SamePath)
    ensures from != [""] && to != [""] && from < to ==> Refusal(m, root, from, to, scan) == Some(IntoItself)
    ensures from != [""] && to != [""] && !(from <= to) && !WellSpelled(from, to) ==> Refusal(m, root, from, to, scan) == Some(PathEscape)
    ensures WellSpelled(from, to) ==> Refusal(m, root, from, to, scan) == PlaceRefusal(m, root, root + Norm(from), root + Norm(to), scan)
  {
    hide PlaceRefusal, WellFormed;
    assert from <= to && |from| == |to| ==> from == to;
  }

  lemma PlacesRefusedIff(m: Files, root: Path, from: Raw, to: Raw, scan: CopyPlan.Item)
    requires WellFormed(m) && scan.Folder?
    ensures PlaceRefusal(m, root, root + Norm(from), root + Norm(to), scan).None? <==>
            PlacesInOrder(m, root, from, to) && WithinLimits(m, Source(m, root, from).value, scan)
    ensures PlacesInOrder(m, root, from, to) && m[Source(m, root, from).value].File? && |m[Source(m, root, from).value].bytes| > 2 * 1024 * 1024 ==>
      PlaceRefusal(m, root, root + Norm(from), root + Norm(to), scan) == Some(TooLarge)
  {
    CopyPlan.AdmittedIff(scan);
    PlacesFit(m, root, root + Norm(from), root + Norm(to));
    hide Norm, Place, Canonical, Exists, Contained, WellFormed, CanonicalRoot, CopyPlan.Admit, CopyPlan.Copyable, CopyPlan.Total;
  }

  /** Exactly the acceptable requests are not refused; with the places in order, what exceeds the limits is refused for that. */
  lemma RefusedIff(m: Files, root: Path, from: Raw, to: Raw, scan: CopyPlan.Item)
    requires WellFormed(m) && scan.Folder?
    ensures Refusal(m, root, from, to, scan).None? <==> Acceptable(m, root, from, to, scan)
    ensures WellSpelled(from, to) && PlacesInOrder(m, root, from, to)
            && m[Source(m, root, from).value].File? && |m[Source(m, root, from).value].bytes| > 2 * 1024 * 1024 ==>
      Refusal(m, root, from, to, scan) == Some(TooLarge)
  {
    SpellingErrors(m, root, from, to, scan);
    PlacesRefusedIff(m, root, from, to, scan);
    hide Refusal, PlaceRefusal, PlacesInOrder, WithinLimits, WellFormed;
    Spelled(from, to);
  }

  lemma Spelled(from: Raw, to: Raw)
    ensures WellSpelled(from, to) ==> from != [""] && to != [""] && from != to && !(from <= to)
  {
  }

  /** The two places of an accepted request, as the program looks for them one by one. */
  lemma PlacesFit(m: Files, root: Path, a: Path, b: Path)
    requires WellFormed(m)
    ensures var source, spot := Place(m, a), Canonical(m, b);
      var there := source.Some? && source.value in m && !m[source.value].Link?;
      && (Exists(m, b) <==> spot.Some? && spot.value in m)
      && (b == [] ==> Exists(m, b))
      && (b != [] ==> var parent := Canonical(m, Up(b));
           && (Exists(m, Up(b)) <==> parent.Some? && parent.value in m)
           && (there && !Exists(m, b) && Exists(m, Up(b)) ==>
                 (Contained(m, root, a) && Contained(m, root, b) <==>
                    CanonicalRoot(m, root) <= source.value && CanonicalRoot(m, root) <= parent.value)))
  {
    hide Real, CanonicalRoot;
    RootExists(m);
    if Place(m, a).Some? {
      PlaceIsReal(m, a);
    }
  }

  /** What the first place decides: a source that is missing, or a link. */
  ghost predicate SourceErrors(m: Files, a: Path, e: CopyError) {
    var source := Place(m, a);
    && (e.NotFound? ==> source.None? || source.value !in m)
    && (e.LinkRefused? || e.TooLarge? || e.Io? ==> source.Some? && source.value in m)
    && (e.LinkRefused? || e.Io? ==> m[source.value].Link? || m[source.value] == Dir)
  }

  /** What the second decides: a destination that exists, its directory missing or no directory. */
  ghost predicate TargetErrors(m: Files, b: Path, e: CopyError) {
    && (e.AlreadyExists? ==> Exists(m, b))
    && (e.ParentMissing? ==> b != [] && !Exists(m, Up(b)))
    && (e.ParentNotDirectory? ==> b != [] && Exists(m, Up(b)) && m[Canonical(m, Up(b)).value] != Dir)
  }

  /** And what there is to copy. */
  ghost predicate ContentErrors(m: Files, source: Option<Path>, scan: CopyPlan.Item, e: CopyError)
    requires scan.Folder?
  {
    source.Some? && source.value in m && !m[source.value].Link? ==>
      && (e.TooLarge? ==> !WithinLimits(m, source.value, scan))
      && (e.LinkRefused? || e.Io? ==> m[source.value] == Dir && !CopyPlan.Copyable(scan, 0))
  }

  /** Every error about a place is true of it. */
  lemma PlaceErrorsAreTrue(m: Files, root: Path, a: Path, b: Path, scan: CopyPlan.Item)
    requires WellFormed(m) && scan.Folder? && PlaceRefusal(m, root, a, b, scan).Some?
    ensures var e := PlaceRefusal(m, root, a, b, scan).value;
      && SourceErrors(m, a, e) && TargetErrors(m, b, e) && ContentErrors(m, Place(m, a), scan, e)
      && (e.PathEscape? ==> !Contained(m, root, a) || !Contained(m, root, b))
  {
    SourceErrorsTrue(m, root, a, b, scan);
    TargetErrorsTrue(m, root, a, b, scan);
    ContentErrorsTrue(m, root, a, b, scan);
    hide PlaceRefusal, SourceErrors, TargetErrors, ContentErrors;
  }

  lemma SourceErrorsTrue(m: Files, root: Path, a: Path, b: Path, scan: CopyPlan.Item)
    requires WellFormed(m) && scan.Folder? && PlaceRefusal(m, root, a, b, scan).Some?
    ensures SourceErrors(m, a, PlaceRefusal(m, root, a, b, scan).value)
    ensures PlaceRefusal(m, root, a, b, scan).value.PathEscape? ==> !Contained(m, root, a) || !Contained(m, root, b)
  {
    hide Place, Canonical, Exists, Contained, WellFormed, ScanError, CopyPlan.Admit;
    if CopyPlan.Admit(scan).Err? {
      ScanErrors(CopyPlan.Admit(scan).error);
    }
  }

  lemma TargetErrorsTrue(m: Files, root: Path, a: Path, b: Path, scan: CopyPlan.Item)
    requires WellFormed(m) && scan.Folder? && PlaceRefusal(m, root, a, b, scan).Some?
    ensures TargetErrors(m, b, PlaceRefusal(m, root, a, b, scan).value)
  {
    PlacesFit(m, root, a, b);
    hide Place, Canonical, Exists, Contained, WellFormed, ScanError, CanonicalRoot, CopyPlan.Admit;
    if CopyPlan.Admit(scan).Err? {
      ScanErrors(CopyPlan.Admit(scan).error);
    }
  }

  lemma ContentErrorsTrue(m: Files, root: Path, a: Path, b: Path, scan: CopyPlan.Item)
    requires WellFormed(m) && scan.Folder? && PlaceRefusal(m, root, a, b, scan).Some?
    ensures ContentErrors(m, Place(m, a), scan, PlaceRefusal(m, root, a, b, scan).value)
  {
    LimitsTrue(m, Place(m, a), scan);
    hide Place, Canonical, Exists, Contained, WellFormed, ScanError, WithinLimits, CopyPlan.Admit, CopyPlan.Copyable;
    if CopyPlan.Admit(scan).Err? {
      ScanErrors(CopyPlan.Admit(scan).error);
    }
  }

  lemma ScanErrors(e: CopyPlan.PlanError)
    ensures ScanError(e).LinkRefused? <==> e.LinkRefused?
    ensures ScanError(e).Io? <==> e.Unreadable?
    ensures ScanError(e).TooLarge? <==> !e.LinkRefused? && !e.Unreadable?
    ensures ScanError(e).LinkRefused? || ScanError(e).Io? || ScanError(e).TooLarge?
  {
  }

  lemma LimitsTrue(m: Files, source: Option<Path>, scan: CopyPlan.Item)
    requires scan.Folder?
    ensures source.Some? && source.value in m && m[source.value].File? && |m[source.value].bytes| > CopyPlan.MAX_FILE_BYTES ==>
              !WithinLimits(m, source.value, scan)
    ensures source.Some? && source.value in m && m[source.value] == Dir && CopyPlan.Admit(scan).Err? ==>
              !WithinLimits(m, source.value, scan)
    ensures CopyPlan.Admit(scan).Err? && (CopyPlan.Admit(scan).error.LinkRefused? || CopyPlan.Admit(scan).error.Unreadable?) ==>
              !CopyPlan.Copyable(scan, 0)
  {
    CopyPlan.AdmittedIff(scan);
    CopyPlan.OverIsTooMuch(scan);
    hide CopyPlan.Copyable, CopyPlan.Admit, CopyPlan.Total;
  }

  // --------------------------------------------------- where paths really lead

  /** What resolving ends at: an entry that is no link, or a free place in a directory. */
  lemma {:induction false} RealEnds(m: Files, at: Path, rest: Path, links: nat)
    requires WellFormed(m) && at in m && m[at] == Dir
    requires Real(m, at, rest, links).Some?
    ensures var r := Real(m, at, rest, links).value; (r in m && !m[r].Link?) || Free(m, r)
    decreases links, |rest|
  {
    if rest != [] {
      var next := at + [rest[0]];
      assert next[..|next| - 1] == at;
      if next in m && m[next].Link? {
        RealEnds(m, [], m[next].to + rest[1..], links - 1);
      } else if |rest| > 1 {
        RealEnds(m, next, rest[1..], links);
      }
    }
  }

  /** One more part, that names no link, in a directory a path leads to. */
  lemma {:induction false} RealExtends(m: Files, at: Path, rest: Path, links: nat, dir: Path, name: string)
    requires Real(m, at, rest, links) == Some(dir) && dir in m && m[dir] == Dir
    requires dir + [name] in m ==> !m[dir + [name]].Link?
    ensures Real(m, at, rest + [name], links) == Some(dir + [name])
    decreases links, |rest|
  {
    if rest != [] {
      var next := at + [rest[0]];
      assert (rest + [name])[1..] == rest[1..] + [name];
      if next in m && m[next].Link? {
        RealExtends(m, [], m[next].to + rest[1..], links - 1, dir, name);
        assert m[next].to + rest[1..] + [name] == m[next].to + (rest[1..] + [name]);
      } else if |rest| == 1 {
        assert rest[1..] + [name] == [name];
      } else {
        RealExtends(m, next, rest[1..], links, dir, name);
      }
    }
  }

  lemma PlaceIsReal(m: Files, p: Path)
    requires WellFormed(m) && Place(m, p).Some?
    ensures var q := Place(m, p).value; q !in m || !m[q].Link? ==> Canonical(m, p) == Some(q)
  {
    if p != [] {
      var q := Place(m, p).value;
      assert p == p[..|p| - 1] + [p[|p| - 1]];
      if q !in m || !m[q].Link? {
        RealExtends(m, [], p[..|p| - 1], MAX_LINKS, q[..|q| - 1], q[|q| - 1]);
      }
    }
  }

  lemma {:induction false} RealStraight(m: Files, at: Path, rest: Path, links: nat)
    requires Real(m, at, rest, links).Some?
    requires forall k :: 0 < k <= |rest| && at + rest[..k] in m ==> !m[at + rest[..k]].Link?
    ensures Real(m, at, rest, links) == Some(at + rest)
    decreases |rest|
  {
    if rest == [] {
      assert at + rest == at;
    } else {
      var next := at + [rest[0]];
      assert at + rest[..1] == next;
      if |rest| == 1 {
        assert at + rest == next;
      } else {
        forall k | 0 < k <= |rest[1..]| && next + rest[1..][..k] in m ensures !m[next + rest[1..][..k]].Link? {
          assert next + rest[1..][..k] == at + rest[..k + 1];
        }
        RealStraight(m, next, rest[1..], links);
        assert next + rest[1..] == at + rest;
      }
    }
  }

  lemma StraightPlace(m: Files, p: Path)
    requires Straight(m, p) && Place(m, p).Some?
    ensures Place(m, p) == Some(p)
  {
    if p != [] {
      var up := p[..|p| - 1];
      forall k | 0 < k <= |up| && [] + up[..k] in m ensures !m[[] + up[..k]].Link? {
        assert [] + up[..k] == p[..k];
      }
      RealStraight(m, [], up, MAX_LINKS);
      assert [] + up == up && p == up + [p[|p| - 1]];
    }
  }

  /** Below a directory without links a path leads straight on. */
  lemma BelowLinkless(m: Files, dir: Path, rest: Path, links: nat)
    requires NoLinks(m, dir) && Real(m, dir, rest, links).Some?
    ensures Real(m, dir, rest, links) == Some(dir + rest)
  {
    RealStraight(m, dir, rest, links);
  }

  /** A path that goes on from such a directory stays inside it. */
  lemma {:induction false} RealInside(m: Files, at: Path, p: Path, more: Path, links: nat, dir: Path)
    requires Real(m, at, p, links) == Some(dir) && dir in m && m[dir] == Dir && NoLinks(m, dir)
    requires Real(m, at, p + more, links).Some?
    ensures dir <= Real(m, at, p + more, links).value
    decreases links, |p|
  {
    hide NoLinks;
    if p == [] {
      assert p + more == more;
      BelowLinkless(m, dir, more, links);
    } else {
      var next := at + [p[0]];
      assert (p + more)[1..] == p[1..] + more;
      if next in m && m[next].Link? {
        assert m[next].to + (p[1..] + more) == (m[next].to + p[1..]) + more;
        RealInside(m, [], m[next].to + p[1..], more, links - 1, dir);
      } else if |p| == 1 {
        assert p[1..] + more == more;
        if more != [] {
          BelowLinkless(m, dir, more, links);
        }
      } else {
        RealInside(m, next, p[1..], more, links, dir);
      }
    }
  }

  lemma EntryKept(m: Files, now: Files, target: Path, p: Path)
    requires WellFormed(m) && target !in m && SameOutside(m, now, target) && p in m
    ensures p in now && now[p] == m[p]
  {
    if target <= p {
      PrefixClosed(m, target, p);
    }
  }

  lemma RootKept(m: Files)
    requires WellFormed(m)
    ensures [] in m
  {
  }

  /** While only a new target changes, paths to what was there before keep leading there: to resolve them once is enough. */
  lemma {:induction false} StillLeads(m: Files, now: Files, target: Path, at: Path, rest: Path, links: nat)
    requires WellFormed(m) && target !in m && SameOutside(m, now, target)
    requires at in m && Real(m, at, rest, links).Some? && Real(m, at, rest, links).value in m
    ensures Real(now, at, rest, links) == Real(m, at, rest, links)
    decreases links, |rest|
  {
    hide WellFormed, SameOutside;
    if rest != [] {
      var next := at + [rest[0]];
      if next in m {
        EntryKept(m, now, target, next);
        if m[next].Link? {
          RootKept(m);
          StillLeads(m, now, target, [], m[next].to + rest[1..], links - 1);
        } else if |rest| > 1 {
          StillLeads(m, now, target, next, rest[1..], links);
        }
      }
    }
  }

  // ------------------------------------------------------- what the scan sees

  /** The names of a directory's entries, in some order. */
  ghost predicate Enumerates(m: Files, dir: Path, names: seq<string>) {
    && (forall n :: n in names <==> n in ChildNames(m, dir))
    && forall i, j :: 0 <= i < j < |names| ==> names[i] != names[j]
  }

  /** The item is a scan of what is at the path: entry by entry, but for what could not be read. */
  ghost predicate Scans(m: Files, p: Path, item: CopyPlan.Item)
    decreases item, 1
  {
    && p in m
    && match item
       case Unstatable => true
       case Link => m[p].Link?
       case File(size) => m[p].File? && size == |m[p].bytes|
       case Folder(readable, items) =>
         m[p] == Dir && (readable ==> exists names :: Enumerates(m, p, names) && ScansAll(m, p, names, items))
  }

  ghost predicate ScansAll(m: Files, dir: Path, names: seq<string>, items: seq<CopyPlan.Item>)
    decreases items, 0
  {
    |names| == |items| && forall i :: 0 <= i < |items| ==> Scans(m, dir + [names[i]], items[i])
  }

  /** Below a scanned path that may be copied there is no link, and nothing deeper than the scan goes. */
  lemma {:induction false} ScannedClean(m: Files, p: Path, item: CopyPlan.Item, depth: nat, q: Path)
    requires WellFormed(m) && Scans(m, p, item) && CopyPlan.Copyable(item, depth)
    requires q in m && p <= q && depth <= CopyPlan.MAX_DEPTH + 1
    ensures !m[q].Link? && |q| - |p| + depth <= CopyPlan.MAX_DEPTH + 1
    decreases item
  {
    hide WellFormed;
    if item.File? {
      BelowFile(m, p, q);
    } else if p != q {
      var items := item.items;
      var names :| Enumerates(m, p, names) && ScansAll(m, p, names, items);
      var n := ThroughScanned(m, p, q, names);
      var i :| 0 <= i < |names| && names[i] == n;
      assert Scans(m, p + [names[i]], items[i]) && CopyPlan.Copyable(items[i], depth + 1);
      ScannedClean(m, p + [n], items[i], depth + 1, q);
    } else {
      assert p == q;
    }
  }

  lemma ThroughScanned(m: Files, p: Path, q: Path, names: seq<string>) returns (n: string)
    requires WellFormed(m) && p in m && m[p] == Dir && Enumerates(m, p, names)
    requires q in m && p < q
    ensures n in names && p + [n] <= q
  {
    n := q[|p|];
    ThroughChild(m, p, q);
  }

  /** An accepted directory has no links, and fits wherever there is room for the deepest copy. */
  lemma AdmittedClean(m: Files, source: Path, scan: CopyPlan.Item, target: Path, limit: nat)
    requires WellFormed(m) && scan.Folder? && Scans(m, source, scan) && CopyPlan.Admit(scan).Ok?
    ensures NoLinks(m, source)
    ensures |target| + CopyPlan.MAX_DEPTH + 1 <= limit ==> Fits(m, source, target, limit)
  {
    hide WellFormed, Scans, CopyPlan.Copyable, CopyPlan.Admit;
    CopyPlan.AdmitExact(scan);
    forall q | q in m && source <= q ensures !m[q].Link? && |q| - |source| <= CopyPlan.MAX_DEPTH + 1 {
      ScannedClean(m, source, scan, 0, q);
    }
  }

  // ------------------------------------------- links on the way, by example

  /** A workspace `w` with one entry `a`, a link `l` beside it, and a directory `d` outside. */
  function Site(a: Entry, l: Path): Files {
    map[[] := Dir, ["w"] := Dir, ["d"] := Dir, ["w", "a"] := a, ["w", "l"] := Link(l)]
  }

  lemma SiteWellFormed(a: Entry, l: Path)
    ensures WellFormed(Site(a, l))
  {
    assert ["w"][..0] == [] && ["d"][..0] == [] && ["w", "a"][..1] == ["w"] && ["w", "l"][..1] == ["w"];
  }

  lemma SiteKeys(a: Entry, l: Path)
    ensures var m := Site(a, l);
      && [] in m && ["w", "a"] in m && ["w", "l"] in m && ["w"] in m && ["d"] in m
      && m[["w", "a"]] == a && m[["w", "l"]] == Link(l) && m[["w"]] == Dir && m[["d"]] == Dir
      && ["d", "x"] !in m && ["w", "a", "x"] !in m
  {
    assert "w"[0] != "d"[0] && "a"[0] != "l"[0];
    assert ["w", "a"][1] != ["w", "l"][1] && ["d", "x"][0] != ["w", "a"][0] && ["d", "x"][0] != ["w", "l"][0];
  }

  lemma Step(m: Files, at: Path, name: string, rest: Path, links: nat)
    ensures var next := at + [name];
      && (next in m && m[next] == Dir && rest != [] ==> Real(m, at, [name] + rest, links) == Real(m, next, rest, links))
      && (next in m && m[next].Link? && links > 0 ==> Real(m, at, [name] + rest, links) == Real(m, [], m[next].to + rest, links - 1))
      && (rest == [] && !(next in m && m[next].Link?) ==> Real(m, at, [name], links) == Some(next))
  {
    assert ([name] + rest)[1..] == rest;
  }

  lemma SitePaths(m: Files)
    requires ["w"] in m && m[["w"]] == Dir && ["w", "a"] in m && !m[["w", "a"]].Link?
    ensures Canonical(m, ["w"]) == Some(["w"]) && Canonical(m, ["w", "a"]) == Some(["w", "a"])
  {
    hide Real;
    Step(m, [], "w", [], 40);
    Step(m, [], "w", ["a"], 40);
    Step(m, ["w"], "a", [], 40);
    assert ["w"] + ["a"] == ["w", "a"] && [] + ["w"] == ["w"];
  }

  lemma DeadLinkPath(m: Files)
    requires ["w"] in m && m[["w"]] == Dir && ["d"] in m && m[["d"]] == Dir && ["d", "x"] !in m
    requires ["w", "l"] in m && m[["w", "l"]] == Link(["d", "x"])
    ensures Canonical(m, ["w", "l"]) == Some(["d", "x"])
  {
    hide Real;
    Step(m, [], "w", ["l"], 40);
    Step(m, ["w"], "l", [], 40);
    Step(m, [], "d", ["x"], 39);
    Step(m, ["d"], "x", [], 39);
    assert ["w"] + ["l"] == ["w", "l"] && [] + ["w"] == ["w"] && [] + ["d"] == ["d"];
    assert ["d"] + ["x"] == ["d", "x"] && ["d", "x"] + [] == ["d", "x"] && ["l"] + [] == ["l"];
  }

  /** Copying the file `a` onto a link to nothing creates what the link leads to, outside the workspace. */
  lemma DeadLinkWritesElsewhere(bytes: seq<int>, scan: CopyPlan.Item)
    requires |bytes| <= CopyPlan.MAX_FILE_BYTES && scan.Folder?
    ensures var m := Site(File(bytes), ["d", "x"]);
      && WellFormed(m) && Refusal(m, ["w"], ["a"], ["l"], scan).None?
      && Target(m, ["w"], ["l"]) == Some(["w", "l"]) && Lands(m, ["w"], ["a"], ["l"]) == Some(["d", "x"])
      && !(["w"] <= ["d", "x"])
  {
    hide Real, Site, WellFormed, Canonical, Norm, CopyPlan.Admit, Escapes;
    var m := Site(File(bytes), ["d", "x"]);
    SiteWellFormed(File(bytes), ["d", "x"]);
    SiteKeys(File(bytes), ["d", "x"]);
    SimpleNames("a", "l");
    SitePaths(m);
    DeadLinkPath(m);
    assert ["w"] + ["a"] == ["w", "a"] && ["w"] + ["l"] == ["w", "l"] && ["w", "a"][..1] == ["w"] && ["w", "l"][..1] == ["w"];
    assert Place(m, ["w", "a"]) == Some(["w", "a"]) && Place(m, ["w", "l"]) == Some(["w", "l"]);
    assert ["w"] <= ["w", "a"] && ["d", "x"][0] != ["w"][0] && "a"[0] != "l"[0];
  }

  lemma SimpleNames(a: string, b: string)
    requires a in {"a", "l", "x"} && b in {"a", "l", "x"}
    ensures Norm([a]) == [a] && Norm([b]) == [b] && Norm([a, b]) == [a, b]
    ensures !Escapes([a]) && !Escapes([b]) && !Escapes([a, b]) && [a] != [""] && [b] != [""] && [a, b] != [""]
    ensures !([a] < [b])
  {
    assert |a| == 1 && |b| == 1 && a[0] != '.' && b[0] != '.';
    NormPlain([a]);
    NormPlain([b]);
    NormPlain([a, b]);
  }

  lemma LinkedPaths(m: Files)
    requires ["w"] in m && m[["w"]] == Dir && ["w", "a"] in m && m[["w", "a"]] == Dir
    requires ["w", "l"] in m && m[["w", "l"]] == Link(["w", "a"]) && ["w", "a", "x"] !in m
    ensures Canonical(m, ["w", "l"]) == Some(["w", "a"]) && Canonical(m, ["w", "l", "x"]) == Some(["w", "a", "x"])
  {
    hide Real;
    Step(m, [], "w", ["l"], 40);
    Step(m, ["w"], "l", [], 40);
    Step(m, [], "w", ["a"], 39);
    Step(m, ["w"], "a", [], 39);
    Step(m, [], "w", ["l", "x"], 40);
    Step(m, ["w"], "l", ["x"], 40);
    Step(m, [], "w", ["a", "x"], 39);
    Step(m, ["w"], "a", ["x"], 39);
    Step(m, ["w", "a"], "x", [], 39);
    assert ["w"] + ["a"] == ["w", "a"] && ["w"] + ["l"] == ["w", "l"] && ["w"] + ["l", "x"] == ["w", "l", "x"];
    assert ["w", "a"] + ["x"] == ["w", "a", "x"] && ["w"] + ["a", "x"] == ["w", "a", "x"] && ["l"] + ["x"] == ["l", "x"];
    assert ["w", "a"] + [] == ["w", "a"] && [] + ["w"] == ["w"] && ["a"] + ["x"] == ["a", "x"] && ["l"] + [] == ["l"];
  }

  /** With `l` leading to the directory `a`, the plain request `a` to `l/x` passes the textual test, and is nested. */
  lemma LinkedNestingMissed()
    ensures var m := Site(Dir, ["w", "a"]); var empty := CopyPlan.Folder(true, []);
      && WellFormed(m) && !GuardRejects(["a"], ["l", "x"]) && Refusal(m, ["w"], ["a"], ["l", "x"], empty).None?
      && Source(m, ["w"], ["a"]) == Some(["w", "a"]) && Target(m, ["w"], ["l", "x"]) == Some(["w", "a", "x"])
  {
    hide Real, Site, WellFormed, Canonical, Norm, Escapes;
    var m := Site(Dir, ["w", "a"]);
    SiteWellFormed(Dir, ["w", "a"]);
    SiteKeys(Dir, ["w", "a"]);
    SimpleNames("a", "l");
    SimpleNames("l", "x");
    SitePaths(m);
    LinkedPaths(m);
    assert ["w"] + ["a"] == ["w", "a"] && ["w"] + ["l", "x"] == ["w", "l", "x"] && ["w", "a"] + ["x"] == ["w", "a", "x"];
    assert ["w", "a"][..1] == ["w"] && ["w", "l", "x"][..2] == ["w", "l"];
    assert Place(m, ["w", "a"]) == Some(["w", "a"]) && Place(m, ["w", "l", "x"]) == Some(["w", "a", "x"]);
    assert "a"[0] != "l"[0] && ["w"] <= ["w", "a"];
    EmptyAdmitted();
  }

  lemma EmptyAdmitted()
    ensures CopyPlan.Admit(CopyPlan.Folder(true, [])).Ok?
  {
  }

  class FileSystem {
    var files: Files
    /** Without it, no operation fails unless it has to. */
    const faulty: bool
    const limit: nat

    constructor (initial: Files, faulty: bool, limit: nat)
      ensures files == initial && this.faulty == faulty && this.limit == limit
    {
      files := initial;
      this.faulty := faulty;
      this.limit := limit;
    }

    // ----------------------------------------------- operations that may fail

    method CreateDir(p: Path) returns (ok: bool)
      requires WellFormed(files) && Bounded(files, limit)
      modifies this
      ensures WellFormed(files) && Bounded(files, limit)
      ensures ok ==> Free(old(files), p) && files == old(files)[p := Dir]
      ensures !ok ==> files == old(files) && (faulty || !Free(files, p) || |p| > limit)
    {
      var fails := *;
      ok := !(faulty && fails) && Free(files, p) && |p| <= limit;
      if ok {
        files := files[p := Dir];
      }
    }

    /** A byte copy to a new path; a failure may leave part of the file behind. */
    method CopyFile(from: Path, to: Path) returns (ok: bool)
      requires WellFormed(files) && Bounded(files, limit)
      modifies this
      ensures WellFormed(files) && Bounded(files, limit)
      ensures ok ==> Free(old(files), to)
      ensures ok ==> from in old(files) && old(files)[from].File? && files == old(files)[to := old(files)[from]]
      ensures !ok ==> faulty || from !in old(files) || !old(files)[from].File? || !Free(old(files), to) || |to| > limit
      ensures !ok ==> files == old(files) || exists part :: to !in old(files) && files == old(files)[to := File(part)]
      ensures !ok && !faulty ==> files == old(files)
    {
      ok := false;
      if from !in files || !files[from].File? || !Free(files, to) || |to| > limit {
        return;
      }
      var part: seq<int> := *;
      var fails := *;
      if faulty && fails {
        var started := *;
        if started {
          files := files[to := File(part)];
        }
      } else {
        files := files[to := files[from]];
        ok := true;
      }
    }

    /** Removes a tree, or a link; a failure may leave any part of it. */
    method RemoveDirAll(p: Path) returns (ok: bool)
      requires WellFormed(files) && p != []
      modifies this
      ensures SameOutside(old(files), files, p)
      ensures ok ==> WellFormed(files) && forall q :: q in files ==> !(p <= q)
      ensures !ok ==> faulty
    {
      var fails := *;
      if faulty && fails {
        var survivors: set<Path> := *;
        files := map q | q in files && (!(p <= q) || q in survivors) :: files[q];
        ok := false;
      } else {
        files := map q | q in files && !(p <= q) :: files[q];
        forall q | q in files && q != [] ensures q[..|q| - 1] in files && files[q[..|q| - 1]] == Dir {
          assert p <= q[..|q| - 1] ==> p <= q;
        }
        ok := true;
      }
    }

    // ------------------------------------------------------------ the program

    /**
     The whole request. `scan` is what the scan of a source directory sees, in some
     order; nothing else changes the filesystem meanwhile. `cleaned` tells whether the
     clean-up after a failed directory copy succeeded.
     */
    method CopyEntry(root: Path, from: Raw, to: Raw, scan: CopyPlan.Item) returns (result: Result<(), CopyError>, cleaned: bool)
      requires WellFormed(files) && Bounded(files, limit) && scan.Folder?
      requires ScanIsOf(files, Source(files, root, from), scan)
      modifies this
      // Refused: the error is the first that applies, and nothing is written.
      ensures Refusal(old(files), root, from, to, scan).Some? ==>
        result == Err(Refusal(old(files), root, from, to, scan).value) && files == old(files)
      // Accepted: there is a source and a place for the target, both in the workspace.
      ensures Refusal(old(files), root, from, to, scan).None? ==> InPlace(old(files), root, from, to)
      // Which requests are accepted, and how the others end.
      ensures !Acceptable(old(files), root, from, to, scan) ==> result.Err? && files == old(files)
      ensures Acceptable(old(files), root, from, to, scan) ==> InPlace(old(files), root, from, to)
      ensures Acceptable(old(files), root, from, to, scan) && !faulty && !Hopeless(old(files), root, from, to, limit) ==> result.Ok?
      ensures WellSpelled(from, to) && !Acceptable(old(files), root, from, to, scan) ==>
        && SourceErrors(old(files), root + Norm(from), result.error)
        && TargetErrors(old(files), root + Norm(to), result.error)
        && ContentErrors(old(files), Source(old(files), root, from), scan, result.error)
      ensures from == [""] || to == [""] ==> result == Err(EmptyPath)
      ensures from != [""] && from == to ==> result == Err(SamePath)
      ensures from != [""] && to != [""] && from < to ==> result == Err(IntoItself)
      ensures from != [""] && to != [""] && !(from <= to) && !WellSpelled(from, to) ==> result == Err(PathEscape)
      ensures
        (&& WellSpelled(from, to) && PlacesInOrder(old(files), root, from, to)
         && old(files)[Source(old(files), root, from).value].File?
         && |old(files)[Source(old(files), root, from).value].bytes| > 2 * 1024 * 1024)
        ==> result == Err(TooLarge) && files == old(files)
      // Nothing changes but where the copy lands,
      ensures Refusal(old(files), root, from, to, scan).None? ==> KeptElsewhere(old(files), files, Lands(old(files), root, from, to))
      // which on success holds a copy, never of a directory inside itself.
      ensures Refusal(old(files), root, from, to, scan).None? && result.Ok? ==> Delivered(old(files), files, root, from, to)
      // A failure to report the new entry comes after a complete copy, which stays.
      ensures Refusal(old(files), root, from, to, scan).None? && result == Err(NotFound) ==> faulty && Delivered(old(files), files, root, from, to)
      // A directory that failed and was cleaned up: exactly as before, unless a dead link sat at the target.
      ensures Refusal(old(files), root, from, to, scan).None? && result.Err? && cleaned ==>
        (files == old(files) <==> Target(old(files), root, to).value !in old(files))
      // A single file that failed is not cleaned up: a part of it may stay where it lands.
      ensures Refusal(old(files), root, from, to, scan).None? && result.Err? && old(files)[Source(old(files), root, from).value].File? ==>
        PartAtMost(old(files), files, Lands(old(files), root, from, to)) && (!faulty ==> files == old(files))
      // Without faults, what stops an accepted copy.
      ensures Refusal(old(files), root, from, to, scan).None? && result.Err? ==>
        faulty || Hopeless(old(files), root, from, to, limit)
    {
      hide SameOutside, Copied, NoLinks, Norm, CopyPlan.Admit, Bounded, Fits, Scans, Place, Canonical, Refusal, Delivered, WellSpelled, PlacesInOrder, Acceptable, PlaceRefusal, SourceErrors, TargetErrors, ContentErrors;
      cleaned := false;
      RefusedIff(files, root, from, to, scan);
      SpellingErrors(files, root, from, to, scan);
      if PlaceRefusal(files, root, root + Norm(from), root + Norm(to), scan).Some? {
        PlaceErrorsAreTrue(files, root, root + Norm(from), root + Norm(to), scan);
      }
      var refusal := Refusal(files, root, from, to, scan);
      if refusal.Some? {
        return Err(refusal.value), cleaned;
      }
      ghost var before := files;
      Accepted(before, root, from, to, scan);
      var source, target := Source(files, root, from).value, Target(files, root, to).value;
      SameRefl(files, target);
      if files[source] == Dir {
        AcceptedScan(before, root, from, to, scan);
        AdmittedClean(files, source, scan, target, limit);
        var ok := CopyDirAll(source, target);
        if !ok {
          ghost var midway := files;
          cleaned := RemoveDirAll(target);
          OutsideTwice(before, midway, files, target);
          if cleaned {
            Restored(before, files, target);
          }
          return Err(Io), cleaned;
        }
        DirDelivered(before, files, root, from, to);
      } else {
        var landing := Lands(files, root, from, to);
        if landing.None? {
          return Err(Io), cleaned;
        }
        FileLands(before, root, from, to, scan);
        SameRefl(files, landing.value);
        ghost var midway := files;
        var ok := CopyFile(source, landing.value);
        if !ok {
          PartialFile(midway, files, landing.value);
          FitsItself(midway, source, landing.value, limit);
          return Err(Io), cleaned;
        }
        FileCopied(midway, files, source, landing.value);
        FileDelivered(before, files, root, from, to);
      }
      var unreported := *;
      if faulty && unreported {
        return Err(NotFound), cleaned;
      }
      result := Ok(());
    }

    /**
     On success `target` is a copy of `source`; on failure only `target`'s subtree was
     touched. Into itself a directory cannot be copied: the recursion goes on until
     the paths are too long.
     */
    method CopyDirAll(source: Path, target: Path) returns (ok: bool)
      requires WellFormed(files) && Bounded(files, limit)
      requires source in files && files[source] == Dir
      modifies this
      ensures WellFormed(files) && Bounded(files, limit)
      ensures target in old(files) ==> !ok && files == old(files)
      ensures SameOutside(old(files), files, target)
      ensures ok ==> !(source <= target) && Copied(old(files), files, source, target) && NoLinks(old(files), source)
      ensures !ok ==>
        || faulty || source <= target || !Free(old(files), target)
        || !NoLinks(old(files), source) || !Fits(old(files), source, target, limit)
      decreases limit - |source|, 1
    {
      hide SameOutside, CopiedPart, Copied, WellFormed, ChildNames, NoLinks, Free, Fits;
      ghost var before := files;
      SameRefl(before, target);
      ok := CreateDir(target);
      if !ok {
        FitsItself(before, source, target, limit);
        return;
      }
      FreeIsNew(before, target);
      ok := CopyChildren(source, target, before);
      if ok {
        AllCopied(before, files, source, target, ChildNames(before, source));
        AllNoLinks(before, source, ChildNames(before, source));
      }
    }

    /** The loop over the entries of `source`, read once the target directory exists. */
    method CopyChildren(source: Path, target: Path, ghost before: Files) returns (ok: bool)
      requires WellFormed(before) && WellFormed(files) && Bounded(files, limit)
      requires source in before && before[source] == Dir && target !in before
      requires files == before[target := Dir]
      modifies this
      ensures WellFormed(files) && Bounded(files, limit) && SameOutside(before, files, target)
      ensures ok ==> !(source <= target) && CopiedPart(before, files, source, target, ChildNames(before, source))
      ensures ok ==> forall n :: n in ChildNames(before, source) ==> NoLinks(before, source + [n])
      ensures !ok ==> faulty || source <= target || !NoLinks(before, source) || !Fits(before, source, target, limit)
      decreases limit - |source|, 0
    {
      hide SameOutside, CopiedPart, Copied, WellFormed, ChildNames, NoLinks, Free, Fits, Placed, Progress;
      var names := ChildNames(files, source);
      var todo := names;
      OnlyTarget(before, target);
      FirstPlaced(before, files, source, target, names);
      FirstProgress(before, source, target, names);
      ok := true;
      while todo != {}
        invariant ok && todo <= names
        invariant WellFormed(files) && Bounded(files, limit)
        invariant SameOutside(before, files, target)
        invariant Placed(files, source, target, names, todo)
        invariant if source <= target then Toward(source, target) in todo else Progress(before, files, source, target, names, todo)
        decreases todo
      {
        var name :| name in todo;
        var fails := *;
        if faulty && fails {
          ok := false;
          return;
        }
        var child, dest := source + [name], target + [name];
        ghost var midway := files;
        ReadyForChild(before, files, source, target, name, names, todo);
        ok := CopyChild(child, dest);
        OutsideDeeper(before, midway, files, target, name);
        if !ok {
          if !faulty && !(source <= target) {
            StoppedByChild(before, midway, source, target, name, limit, names, todo);
          }
          return;
        }
        AfterChild(before, midway, files, source, target, name, names, todo);
        todo := todo - {name};
      }
      AllDone(before, files, source, target, names);
    }

    /** One entry of the loop: recurse, refuse, or copy bytes. */
    method CopyChild(child: Path, dest: Path) returns (ok: bool)
      requires WellFormed(files) && Bounded(files, limit)
      requires child in files && dest !in files
      modifies this
      ensures WellFormed(files) && Bounded(files, limit)
      ensures SameOutside(old(files), files, dest)
      ensures ok ==> Copied(old(files), files, child, dest) && NoLinks(old(files), child)
      ensures ok && old(files)[child] == Dir ==> !(child <= dest)
      ensures !ok ==>
        || faulty || child <= dest || !Free(old(files), dest)
        || !NoLinks(old(files), child) || !Fits(old(files), child, dest, limit)
      decreases limit - |child|, 2
    {
      hide CopiedPart, Copied, WellFormed, ChildNames, Fits;
      ghost var midway := files;
      match files[child] {
        case Dir =>
          ok := CopyDirAll(child, dest);
        case Link(_) =>
          SameRefl(files, dest);
          ok := false;
        case File(_) =>
          ok := CopyFile(child, dest);
          if ok {
            FileCopied(midway, files, child, dest);
          } else {
            FitsItself(midway, child, dest, limit);
          }
      }
    }
  }

  // ------------------------------------------------------- the request's lemmas

  /** The scan is of the source, when that is a directory. */
  ghost predicate ScanIsOf(m: Files, source: Option<Path>, scan: CopyPlan.Item) {
    source.Some? && source.value in m && m[source.value] == Dir ==> Scans(m, source.value, scan)
  }

  /** The source is there and no link; the target is a place in a directory; both really lie in the workspace. */
  predicate InPlace(m: Files, root: Path, from: Raw, to: Raw) {
    var source, target := Source(m, root, from), Target(m, root, to);
    && source.Some? && source.value in m && !m[source.value].Link? && CanonicalRoot(m, root) <= source.value
    && target.Some? && target.value != [] && CanonicalRoot(m, root) <= target.value
    && target.value[..|target.value| - 1] in m && m[target.value[..|target.value| - 1]] == Dir
    && (target.value in m ==> m[target.value].Link?)
  }

  ghost predicate KeptElsewhere(m: Files, now: Files, landing: Option<Path>) {
    if landing.None? then now == m else SameOutside(m, now, landing.value)
  }

  /** The copy is complete. Where it lands is the target, exactly when the target was free. */
  ghost predicate Delivered(m: Files, now: Files, root: Path, from: Raw, to: Raw)
    requires InPlace(m, root, from, to)
  {
    var source, target, landing := Source(m, root, from).value, Target(m, root, to).value, Lands(m, root, from, to);
    && landing.Some? && Copied(m, now, source, landing.value)
    && (m[source] == Dir ==> !(source <= target) && target !in m)
    && (landing.value == target <==> target !in m)
    && (SameOutside(m, now, target) <==> target !in m)
    && (target in m ==> target in now && now[target] == m[target])
  }

  ghost predicate PartAtMost(m: Files, now: Files, landing: Option<Path>) {
    now == m || (landing.Some? && exists part :: landing.value !in m && now == m[landing.value := File(part)])
  }

  /** No place to write, a directory into itself or onto a link, or paths too long. */
  ghost predicate Hopeless(m: Files, root: Path, from: Raw, to: Raw, limit: nat)
    requires InPlace(m, root, from, to)
  {
    var source, target, landing := Source(m, root, from).value, Target(m, root, to).value, Lands(m, root, from, to);
    || landing.None?
    || (m[source] == Dir && (source <= target || target in m))
    || !Fits(m, source, landing.value, limit)
  }

  /** An accepted request has a source that is there, and a place for the target, both in the workspace. */
  lemma Accepted(m: Files, root: Path, from: Raw, to: Raw, scan: CopyPlan.Item)
    requires WellFormed(m) && scan.Folder?
    requires Refusal(m, root, from, to, scan).None?
    ensures InPlace(m, root, from, to)
    ensures var target := Target(m, root, to).value; target !in m ==> Free(m, target) && Canonical(m, root + Norm(to)) == Some(target)
  {
    hide Norm, CopyPlan.Admit, Real;
    var a, b := root + Norm(from), root + Norm(to);
    RootExists(m);
    PlaceIsReal(m, a);
    PlaceIsReal(m, b);
  }

  lemma RootExists(m: Files)
    requires WellFormed(m)
    ensures Exists(m, [])
  {
  }

  lemma AcceptedScan(m: Files, root: Path, from: Raw, to: Raw, scan: CopyPlan.Item)
    requires WellFormed(m) && scan.Folder?
    requires Refusal(m, root, from, to, scan).None? && Source(m, root, from).Some? && Source(m, root, from).value in m
    requires m[Source(m, root, from).value] == Dir
    ensures CopyPlan.Admit(scan).Ok?
  {
    hide Norm, CopyPlan.Admit, Real, Contained, Exists;
  }

  /** Where an accepted single file lands: the target if that is free, else a free place that is not below it. */
  lemma FileLands(m: Files, root: Path, from: Raw, to: Raw, scan: CopyPlan.Item)
    requires WellFormed(m) && scan.Folder?
    requires Refusal(m, root, from, to, scan).None? && InPlace(m, root, from, to)
    requires m[Source(m, root, from).value].File? && Lands(m, root, from, to).Some?
    ensures var w, target := Lands(m, root, from, to).value, Target(m, root, to).value;
      && Free(m, w) && (w == target <==> target !in m) && (target in m ==> !(target <= w))
  {
    hide Norm, CopyPlan.Admit, Contained;
    Accepted(m, root, from, to, scan);
    RealEnds(m, [], root + Norm(to), MAX_LINKS);
    var w, target := Lands(m, root, from, to).value, Target(m, root, to).value;
    if target in m {
      NothingBelowLink(m, target, w);
    }
  }

  lemma DirDelivered(m: Files, now: Files, root: Path, from: Raw, to: Raw)
    requires InPlace(m, root, from, to) && m[Source(m, root, from).value] == Dir
    requires var source, target := Source(m, root, from).value, Target(m, root, to).value;
      target !in m && !(source <= target) && Copied(m, now, source, target) && SameOutside(m, now, target)
    ensures Delivered(m, now, root, from, to)
  {
    hide Place, Norm, Copied, SameOutside;
  }

  lemma FileDelivered(m: Files, now: Files, root: Path, from: Raw, to: Raw)
    requires InPlace(m, root, from, to) && m[Source(m, root, from).value].File?
    requires Lands(m, root, from, to).Some?
    requires var source, target, w := Source(m, root, from).value, Target(m, root, to).value, Lands(m, root, from, to).value;
      && w !in m && now == m[w := m[source]] && Copied(m, now, source, w) && SameOutside(m, now, w)
      && (w == target <==> target !in m) && (target in m ==> !(target <= w))
    ensures Delivered(m, now, root, from, to)
  {
    hide Place, Canonical, Norm, Copied;
  }

  lemma NothingBelowLink(m: Files, link: Path, p: Path)
    requires WellFormed(m) && link in m && m[link].Link? && Free(m, p)
    ensures !(link <= p)
  {
    var dir := p[..|p| - 1];
    assert link <= p && |link| == |p| ==> link == p;
    assert link <= p && |link| < |p| ==> link <= dir;
    OnlyItselfBelow(m, link, dir);
  }

  lemma OnlyItselfBelow(m: Files, leaf: Path, p: Path)
    requires WellFormed(m) && leaf in m && m[leaf] != Dir && p in m
    ensures leaf <= p ==> p == leaf
  {
    if leaf <= p {
      PrefixClosed(m, leaf, p);
      assert |leaf| == |p| ==> leaf == p;
    }
  }

  lemma OutsideTwice(before: Files, midway: Files, now: Files, root: Path)
    requires SameOutside(before, midway, root) && SameOutside(midway, now, root)
    ensures SameOutside(before, now, root)
  {
  }

  lemma Restored(before: Files, now: Files, target: Path)
    requires WellFormed(before) && SameOutside(before, now, target)
    requires forall q :: q in now ==> !(target <= q)
    ensures now == before <==> target !in before
  {
    if target !in before {
      forall p | p in before ensures !(target <= p) {
        if target <= p {
          PrefixClosed(before, target, p);
        }
      }
    }
  }

  lemma PartialFile(before: Files, now: Files, target: Path)
    requires now == before || exists part :: now == before[target := File(part)]
    ensures SameOutside(before, now, target)
  {
  }

  // ------------------------------------------------------- the loop's lemmas

  lemma FreeIsNew(m: Files, p: Path)
    requires Free(m, p)
    ensures p !in m
  {
  }

  lemma OnlyTarget(before: Files, target: Path)
    ensures SameOutside(before, before[target := Dir], target)
  {
  }

  /** A copy that fits has room for its own target. */
  lemma FitsItself(m: Files, source: Path, target: Path, limit: nat)
    requires source in m
    ensures |target| > limit ==> !Fits(m, source, target, limit)
  {
  }

  /** The next part on the way from a directory down to a path inside it. */
  function Toward(source: Path, target: Path): string
    requires source <= target
  {
    if source == target then "" else target[|source|]
  }

  /** The entries of the source are there, their destinations are free, and the target is a directory. */
  ghost predicate Placed(now: Files, source: Path, target: Path, names: set<string>, todo: set<string>) {
    && target in now && now[target] == Dir
    && (forall n :: n in names ==> source + [n] in now)
    && forall n :: n in todo ==> target + [n] !in now
  }

  /** What the loop has done so far, on a target outside the source. */
  ghost predicate Progress(before: Files, now: Files, source: Path, target: Path, names: set<string>, todo: set<string>) {
    && names == ChildNames(before, source)
    && CopiedPart(before, now, source, target, names - todo)
    && forall n :: n in names - todo ==> NoLinks(before, source + [n])
  }

  lemma FirstPlaced(before: Files, now: Files, source: Path, target: Path, names: set<string>)
    requires WellFormed(before) && WellFormed(now) && source in before && target !in before && now == before[target := Dir]
    requires names == ChildNames(now, source)
    ensures Placed(now, source, target, names, names)
    ensures source <= target ==> Toward(source, target) in names
  {
    forall n | n in names ensures source + [n] in now {
      ChildIsEntry(now, source, n);
    }
    forall n | n in names ensures target + [n] !in now {
      BelowFree(before, target, target + [n]);
    }
    if source <= target {
      assert source != target;
      PrefixClosed(now, target[..|source| + 1], target);
      assert source < target[..|source| + 1];
    }
  }

  lemma FirstProgress(before: Files, source: Path, target: Path, names: set<string>)
    requires WellFormed(before) && source in before && target !in before
    requires names == ChildNames(before[target := Dir], source)
    ensures !(source <= target) ==> Progress(before, before[target := Dir], source, target, names, names)
  {
    if !(source <= target) {
      FreshTarget(before, source, target);
      assert names - names == {};
    }
  }

  lemma FreshTarget(before: Files, source: Path, target: Path)
    requires WellFormed(before) && source in before && target !in before && !(source <= target)
    ensures CopiedPart(before, before[target := Dir], source, target, {})
    ensures ChildNames(before[target := Dir], source) == ChildNames(before, source)
  {
    forall p | target <= p ensures p !in before {
      BelowFree(before, target, p);
    }
  }

  /** The child toward a target inside the source is a directory, and its destination is inside it. */
  lemma TowardIsNested(now: Files, source: Path, target: Path, name: string)
    requires WellFormed(now) && source < target && target in now && now[target] == Dir
    requires name == Toward(source, target)
    ensures source + [name] in now && now[source + [name]] == Dir
    ensures source + [name] <= target + [name]
  {
    assert source + [name] == target[..|source| + 1];
    assert |source + [name]| == |target| ==> source + [name] == target;
    PrefixClosed(now, source + [name], target);
  }

  /** All a child's copy asks for. */
  lemma ReadyForChild(before: Files, now: Files, source: Path, target: Path, name: string, names: set<string>, todo: set<string>)
    requires WellFormed(before) && WellFormed(now) && source in before && target !in before
    requires Placed(now, source, target, names, todo) && name in todo && todo <= names
    ensures source + [name] in now && target + [name] !in now && Free(now, target + [name])
    ensures source <= target && name == Toward(source, target) ==>
      now[source + [name]] == Dir && source + [name] <= target + [name]
    ensures !(source <= target) ==> !(source + [name] <= target + [name]) && !(source + [name] <= target)
  {
    assert (target + [name])[..|target + [name]| - 1] == target;
    if source <= target {
      if name == Toward(source, target) {
        TowardIsNested(now, source, target, name);
      }
    } else {
      NotNested(source, target, name);
    }
  }

  /** A child that could not be copied stops the copy for a reason of the whole source. */
  lemma StoppedByChild(before: Files, midway: Files, source: Path, target: Path, name: string, limit: nat, names: set<string>, todo: set<string>)
    requires WellFormed(before) && target !in before && !(source <= target)
    requires SameOutside(before, midway, target)
    requires Progress(before, midway, source, target, names, todo) && name in todo && todo <= names
    requires !NoLinks(midway, source + [name]) || !Fits(midway, source + [name], target + [name], limit)
    ensures !NoLinks(before, source) || !Fits(before, source, target, limit)
  {
    hide SameOutside, WellFormed, CopiedPart;
    ChildIsEntry(before, source, name);
    NotNested(source, target, name);
    if !NoLinks(midway, source + [name]) {
      LinksKept(before, midway, source, target, name);
    } else {
      var p :| p in midway && source + [name] <= p && |p| - |source + [name]| + |target + [name]| > limit;
      SourceUntouched(before, midway, source + [name], target, p);
      PrefixDrop(source, name, p);
    }
  }

  /** All a child's copy leaves. */
  lemma AfterChild(before: Files, midway: Files, now: Files, source: Path, target: Path, name: string, names: set<string>, todo: set<string>)
    requires WellFormed(before) && source in before && target !in before
    requires SameOutside(before, midway, target) && Placed(midway, source, target, names, todo)
    requires name in todo && todo <= names
    requires SameOutside(midway, now, target + [name])
    requires Copied(midway, now, source + [name], target + [name]) && NoLinks(midway, source + [name])
    requires !(source <= target) ==> Progress(before, midway, source, target, names, todo)
    ensures Placed(now, source, target, names, todo - {name})
    ensures !(source <= target) ==> Progress(before, now, source, target, names, todo - {name})
  {
    hide SameOutside, CopiedPart, Copied, NoLinks, WellFormed, Placed, ChildNames;
    StillPlaced(before, midway, now, source, target, name, names, todo);
    if !(source <= target) {
      ChildIsEntry(before, source, name);
      NotNested(source, target, name);
      ChildDone(before, midway, now, source, target, name, names - todo);
      LinksSame(before, midway, source + [name], target);
      assert names - (todo - {name}) == names - todo + {name};
    }
  }

  lemma StillPlaced(before: Files, midway: Files, now: Files, source: Path, target: Path, name: string, names: set<string>, todo: set<string>)
    requires WellFormed(before) && source in before && target !in before
    requires Placed(midway, source, target, names, todo) && name in todo && todo <= names
    requires SameOutside(midway, now, target + [name])
    requires !(source <= target) ==> names == ChildNames(before, source)
    ensures Placed(now, source, target, names, todo - {name})
  {
    hide WellFormed, ChildNames;
    forall n | n in names ensures source + [n] in now {
      Elsewhere(before, source, target, name, n, names);
    }
    assert !(target + [name] <= target);
    forall n | n in todo && n != name ensures target + [n] !in now {
      assert (target + [n])[|target|] != (target + [name])[|target|];
    }
  }

  /** No entry of the source lies below a child's destination. */
  lemma Elsewhere(before: Files, source: Path, target: Path, name: string, n: string, names: set<string>)
    requires WellFormed(before) && source in before && target !in before && n in names
    requires !(source <= target) ==> names == ChildNames(before, source)
    ensures !(target + [name] <= source + [n])
  {
    hide ChildNames;
    assert source <= target && |source| == |target| ==> source == target;
    if target + [name] <= source + [n] && !(source <= target) {
      ChildIsEntry(before, source, n);
      PrefixDrop(target, name, source + [n]);
      BelowFree(before, target, source + [n]);
    }
  }

  lemma AllDone(before: Files, now: Files, source: Path, target: Path, names: set<string>)
    requires !(source <= target) ==> Progress(before, now, source, target, names, {})
    ensures !(source <= target) ==> names == ChildNames(before, source) && CopiedPart(before, now, source, target, names)
    ensures !(source <= target) ==> forall n :: n in names ==> NoLinks(before, source + [n])
  {
    assert names - {} == names;
  }

  lemma OutsideDeeper(before: Files, midway: Files, now: Files, target: Path, name: string)
    requires SameOutside(before, midway, target)
    requires SameOutside(midway, now, target + [name])
    ensures SameOutside(before, now, target)
  {
    forall p | !(target <= p)
      ensures p in now <==> p in before
      ensures p in now ==> now[p] == before[p]
    {
      if target + [name] <= p {
        PrefixDrop(target, name, p);
      }
    }
  }

  lemma PrefixDrop(root: Path, name: string, p: Path)
    requires root + [name] <= p
    ensures root <= p
  {
    assert root == (root + [name])[..|root|] == p[..|root|];
  }

  lemma PrefixShift(source: Path, target: Path, name: string)
    requires source + [name] <= target + [name]
    ensures source <= target
  {
    assert source == (source + [name])[..|source|] == (target + [name])[..|source|] == target[..|source|];
  }

  lemma SameRefl(m: Files, root: Path)
    ensures SameOutside(m, m, root)
  {
  }

  lemma NotNested(source: Path, target: Path, name: string)
    requires !(source <= target)
    ensures !(source + [name] <= target + [name])
    ensures !(source + [name] <= target)
  {
    if source + [name] <= target + [name] {
      PrefixShift(source, target, name);
    }
    if source + [name] <= target {
      PrefixDrop(source, name, target);
    }
  }

  lemma FileCopied(midway: Files, now: Files, child: Path, dest: Path)
    requires WellFormed(midway) && child in midway && midway[child].File? && dest !in midway
    requires now == midway[dest := midway[child]]
    ensures SameOutside(midway, now, dest)
    ensures Copied(midway, now, child, dest)
    ensures NoLinks(midway, child)
  {
    forall p | child <= p ensures p in midway <==> p == child {
      BelowFile(midway, child, p);
    }
    forall p | dest <= p
      ensures p in now <==> Twin(p, dest, child) in midway
      ensures p in now ==> now[p] == midway[child] && Twin(p, dest, child) == child
    {
      TwinOfRoot(p, dest, child);
      BelowFree(midway, dest, p);
      BelowFile(midway, child, Twin(p, dest, child));
    }
  }

  /** Below a file there is nothing but itself, and below nothing there is nothing. */
  lemma BelowFile(m: Files, file: Path, p: Path)
    requires WellFormed(m) && file in m && m[file].File? && file <= p
    ensures p in m <==> p == file
  {
    if p in m {
      PrefixClosed(m, file, p);
    }
  }

  lemma BelowFree(m: Files, free: Path, p: Path)
    requires WellFormed(m) && free !in m && free <= p
    ensures p !in m
  {
    if p in m {
      PrefixClosed(m, free, p);
    }
  }

  lemma TwinOfRoot(p: Path, from: Path, to: Path)
    requires from <= p
    ensures to <= Twin(p, from, to)
    ensures Twin(p, from, to) == to <==> p == from
  {
    assert p == from + p[|from|..];
  }

  /** One more child done. */
  lemma ChildDone(before: Files, midway: Files, now: Files, source: Path, target: Path, name: string, done: set<string>)
    requires WellFormed(before) && source in before && target !in before && !(source <= target)
    requires SameOutside(before, midway, target) && CopiedPart(before, midway, source, target, done)
    requires name !in done && source + [name] in before
    requires SameOutside(midway, now, target + [name])
    requires Copied(midway, now, source + [name], target + [name])
    ensures CopiedPart(before, now, source, target, done + {name})
  {
    hide SameOutside, Copied, WellFormed;
    forall p | target <= p
      ensures p in now <==> p == target || (p[|target|] in done + {name} && Twin(p, target, source) in before)
      ensures p in now ==> now[p] == if p == target then Dir else if Twin(p, target, source) in before then before[Twin(p, target, source)] else Dir
    {
      if target + [name] <= p {
        ThroughNewChild(before, midway, now, source, target, name, p);
      } else {
        ThroughOtherChild(before, midway, now, source, target, name, done, p);
      }
    }
  }

  lemma ThroughNewChild(before: Files, midway: Files, now: Files, source: Path, target: Path, name: string, p: Path)
    requires WellFormed(before) && target !in before && !(source <= target)
    requires SameOutside(before, midway, target)
    requires source + [name] in before && target + [name] <= p
    requires Copied(midway, now, source + [name], target + [name])
    ensures target <= p && p != target && p[|target|] == name
    ensures p in now <==> Twin(p, target, source) in before
    ensures p in now ==> now[p] == before[Twin(p, target, source)]
  {
    hide WellFormed, SameOutside;
    PrefixDrop(target, name, p);
    NotNested(source, target, name);
    var twin := Twin(p, target + [name], source + [name]);
    TwinThrough(p, target, source, name);
    SourceUntouched(before, midway, source + [name], target, twin);
  }

  lemma TwinThrough(p: Path, target: Path, source: Path, name: string)
    requires target + [name] <= p
    ensures target < p && p[|target|] == name
    ensures Twin(p, target + [name], source + [name]) == Twin(p, target, source)
    ensures source + [name] <= Twin(p, target, source)
  {
    PrefixDrop(target, name, p);
    assert p[|target|..] == [name] + p[|target| + 1..];
    assert source + p[|target|..] == source + [name] + p[|target| + 1..];
  }

  lemma ThroughOtherChild(before: Files, midway: Files, now: Files, source: Path, target: Path, name: string, done: set<string>, p: Path)
    requires CopiedPart(before, midway, source, target, done)
    requires SameOutside(midway, now, target + [name])
    requires target <= p && !(target + [name] <= p)
    ensures p != target ==> p[|target|] != name
    ensures p in now <==> p == target || (p[|target|] in done && Twin(p, target, source) in before)
    ensures p in now ==> now[p] == if p == target then Dir else before[Twin(p, target, source)]
  {
    if p != target && p[|target|] == name {
      NamedChild(target, name, p);
    }
  }

  lemma NamedChild(target: Path, name: string, p: Path)
    requires target < p && p[|target|] == name
    ensures target + [name] <= p
  {
    assert target + [name] == p[..|target| + 1];
  }

  lemma LinksSame(before: Files, midway: Files, child: Path, target: Path)
    requires WellFormed(before) && child in before && target !in before && !(child <= target)
    requires SameOutside(before, midway, target) && NoLinks(midway, child)
    ensures NoLinks(before, child)
  {
    forall p | p in before && child <= p ensures !before[p].Link? {
      SourceUntouched(before, midway, child, target, p);
    }
  }

  lemma LinksKept(before: Files, midway: Files, source: Path, target: Path, name: string)
    requires WellFormed(before) && target !in before && !(source + [name] <= target)
    requires source + [name] in before
    requires SameOutside(before, midway, target)
    ensures NoLinks(before, source) ==> NoLinks(midway, source + [name])
  {
    if NoLinks(before, source) {
      forall p | p in midway && source + [name] <= p ensures !midway[p].Link? {
        SourceUntouched(before, midway, source + [name], target, p);
        PrefixDrop(source, name, p);
      }
    }
  }

  lemma AllNoLinks(before: Files, source: Path, names: set<string>)
    requires WellFormed(before) && source in before && before[source] == Dir
    requires names == ChildNames(before, source)
    requires forall n :: n in names ==> NoLinks(before, source + [n])
    ensures NoLinks(before, source)
  {
    forall p | p in before && source <= p ensures !before[p].Link? {
      if p != source {
        ThroughChild(before, source, p);
      }
    }
  }

  /** Paths under a source child are never under the target. */
  lemma SourceUntouched(before: Files, midway: Files, child: Path, target: Path, p: Path)
    requires WellFormed(before) && child in before && target !in before && !(child <= target)
    requires SameOutside(before, midway, target)
    requires child <= p
    ensures p in midway <==> p in before
    ensures p in before ==> midway[p] == before[p]
  {
    if target <= p {
      PrefixesCompare(target, child, p);
      PrefixClosed(before, target, child);
    }
  }

  lemma AllCopied(before: Files, now: Files, source: Path, target: Path, names: set<string>)
    requires WellFormed(before) && source in before && before[source] == Dir
    requires names == ChildNames(before, source)
    requires CopiedPart(before, now, source, target, names)
    ensures Copied(before, now, source, target)
  {
    forall p | target <= p
      ensures p in now <==> Twin(p, target, source) in before
      ensures p in now ==> Twin(p, target, source) in before && now[p] == before[Twin(p, target, source)]
    {
      var twin := Twin(p, target, source);
      if p == target {
        assert twin == source;
      } else if twin in before {
        ThroughChild(before, source, twin);
        assert twin[|source|] == p[|target|];
      }
    }
  }
}
