/**
 The order in which the walks come across paths, told of the paths alone: a directory
 before what it holds, its own entries before those deeper down, and of two
 directories beside each other the later one first.
 */
module TreeOrder {
  import opened Sorting
  import opened Wrappers
  import opened Tree

  // -------------------------------------------------------------- of two names

  /** Smaller when folded; folded alike, smaller as it is. */
  ghost predicate NameBefore(fold: string -> string, a: string, b: string) {
    if fold(a) == fold(b) then Smaller(a, b) else Smaller(fold(a), fold(b))
  }

  function Same(s: string): string {
    s
  }

  lemma FoldedIsBefore(fold: string -> string, c: Child, d: Child)
    requires c.name != d.name
    ensures FoldedLe(fold, c, d) <==> NameBefore(fold, c.name, d.name)
    ensures NameLe(c, d) <==> NameBefore(Same, c.name, d.name)
  {
    hide LexLe, Smaller;
    LexIsSmaller(c.name, d.name);
    LexIsSmaller(fold(c.name), fold(d.name));
  }

  // -------------------------------------------------------------- of two paths

  /** Who comes first of two paths that agree up to there, and no further. */
  ghost predicate PrecedesAt(fold: string -> string, p: Path, q: Path, k: nat) {
    && k <= |p| && k < |q| && p[..k] == q[..k]
    && (k < |p| ==>
          if |p| == k + 1 && |q| == k + 1 then NameBefore(fold, p[k], q[k])
          else if |p| == k + 1 then p[k] != q[k]
          else |q| > k + 1 && NameBefore(fold, q[k], p[k]))
  }

  ghost predicate Precedes(fold: string -> string, p: Path, q: Path) {
    exists k: nat :: PrecedesAt(fold, p, q, k)
  }

  lemma NameDiffers(fold: string -> string, a: string, b: string)
    ensures NameBefore(fold, a, b) ==> a != b
  {
    hide Smaller;
    SmallerDiffers(a, b);
  }

  lemma PrecedesDistinct(fold: string -> string, p: Path, q: Path)
    requires Precedes(fold, p, q)
    ensures p != q
  {
    hide NameBefore;
    var k: nat :| PrecedesAt(fold, p, q, k);
    if k < |p| {
      NameDiffers(fold, p[k], q[k]);
      NameDiffers(fold, q[k], p[k]);
    }
  }

  lemma SiblingsPrecede(fold: string -> string, path: Path, a: string, b: string)
    requires NameBefore(fold, a, b)
    ensures Precedes(fold, path + [a], path + [b])
  {
    hide NameBefore;
    assert PrecedesAt(fold, path + [a], path + [b], |path|);
  }

  /** A directory's own entry comes before anything deeper in the directory. */
  lemma OwnFirst(fold: string -> string, path: Path, a: string, q: Path)
    requires path <= q && |q| > |path| + 1
    ensures Precedes(fold, path + [a], q)
  {
    hide NameBefore;
    var p := path + [a];
    if q[|path|] == a {
      assert q[..|p|] == p[..|p|];
      assert PrecedesAt(fold, p, q, |p|);
    } else {
      assert PrecedesAt(fold, p, q, |path|);
    }
  }

  /** Of two subdirectories the later is walked first. */
  lemma LaterFirst(fold: string -> string, path: Path, p: Path, q: Path)
    requires path <= p && path <= q && |p| > |path| + 1 && |q| > |path| + 1
    requires NameBefore(fold, q[|path|], p[|path|])
    ensures Precedes(fold, p, q)
  {
    hide NameBefore;
    assert PrecedesAt(fold, p, q, |path|);
  }

  // ------------------------------------------------ of children and directories

  ghost predicate NamesRise(fold: string -> string, kids: seq<Child>) {
    forall i, j :: 0 <= i < j < |kids| ==> NameBefore(fold, kids[i].name, kids[j].name)
  }

  lemma FoldedRise(fold: string -> string, kids: seq<Child>)
    requires DistinctNames(kids)
    ensures NamesRise(fold, Sort(Folded(fold), kids))
  {
    hide Sort, FoldedLe, NameBefore;
    var sorted := Sort(Folded(fold), kids);
    FoldedOrder(fold);
    SortSorted(Folded(fold), kids);
    SortNames(Folded(fold), kids);
    forall i, j | 0 <= i < j < |sorted| ensures NameBefore(fold, sorted[i].name, sorted[j].name) {
      assert Folded(fold)(sorted[i], sorted[j]);
      FoldedIsBefore(fold, sorted[i], sorted[j]);
    }
  }

  lemma PlainRise(kids: seq<Child>)
    requires DistinctNames(kids)
    ensures NamesRise(Same, Sort(NameLe, kids))
  {
    hide Sort, NameBefore;
    var sorted := Sort(NameLe, kids);
    NameOrder();
    SortSorted(NameLe, kids);
    SortNames(NameLe, kids);
    forall i, j | 0 <= i < j < |sorted| ensures NameBefore(Same, sorted[i].name, sorted[j].name) {
      FoldedIsBefore(Same, sorted[i], sorted[j]);
    }
  }

  predicate SubdirectoryOf(path: Path, f: Frame) {
    path <= f.path && |f.path| == |path| + 1
  }

  /** Subdirectories of one directory, in the order of their names. */
  ghost predicate FramesRise(fold: string -> string, path: Path, frames: seq<Frame>) {
    && (forall f :: f in frames ==> SubdirectoryOf(path, f))
    && forall i, j :: 0 <= i < j < |frames| ==>
         SubdirectoryOf(path, frames[i]) && SubdirectoryOf(path, frames[j]) && NameBefore(fold, frames[i].path[|path|], frames[j].path[|path|])
  }

  lemma {:induction false} SubsRise(fold: string -> string, path: Path, kids: seq<Child>, level: nat)
    requires NamesRise(fold, kids)
    ensures FramesRise(fold, path, Subs(path, kids, level))
  {
    hide NameBefore, Visible;
    if kids != [] {
      SubsRise(fold, path, kids[1..], level);
      SubsElements(path, kids[1..], level);
      var rest := Subs(path, kids[1..], level);
      forall f | f in rest ensures SubdirectoryOf(path, f) && NameBefore(fold, kids[0].name, f.path[|path|]) {
        var c :| c in kids[1..] && SubOf(path, level, c, f);
      }
    }
  }
}
