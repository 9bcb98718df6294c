/**
 What the budget scan measures, told of the tree itself: which directories pass it,
 and that its totals are the number and the size of the files below.
 */
module CopyTotals {
  import opened CopyTree
  import CopyPlan

  /** Everything could be read. */
  predicate Seen(item: CopyPlan.Item)
    decreases item
  {
    !item.Unstatable? && (item.Folder? ==> item.readable && forall i :: 0 <= i < |item.items| ==> Seen(item.items[i]))
  }

  ghost predicate AllSeen(items: seq<CopyPlan.Item>) {
    forall i :: 0 <= i < |items| ==> Seen(items[i])
  }

  /** The files at or below a path. */
  ghost function FilesBelow(m: Files, p: Path): set<Path> {
    set q | q in m && p <= q && m[q].File?
  }

  /** Their size together. */
  ghost function Bytes(m: Files, ps: set<Path>): nat
    requires forall q :: q in ps ==> q in m && m[q].File?
  {
    if ps == {} then 0 else var q :| q in ps; |m[q].bytes| + Bytes(m, ps - {q})
  }

  /** Nothing below a directory but files of up to 2 MiB and directories, these at most eight levels down. */
  ghost predicate Small(m: Files, p: Path) {
    forall q :: q in m && p <= q ==> SmallEntry(m[q], |q| - |p|)
  }

  ghost predicate SmallEntry(e: Entry, depth: nat) {
    !e.Link? && (e.File? ==> |e.bytes| <= 2 * 1024 * 1024) && (e == Dir ==> depth <= 8)
  }

  // ------------------------------------------------------------------- totals

  lemma {:induction false} BytesTake(m: Files, ps: set<Path>, q: Path)
    requires forall r :: r in ps ==> r in m && m[r].File?
    requires q in ps
    ensures Bytes(m, ps) == |m[q].bytes| + Bytes(m, ps - {q})
    decreases ps
  {
    var r :| r in ps && Bytes(m, ps) == |m[r].bytes| + Bytes(m, ps - {r});
    if r != q {
      BytesTake(m, ps - {r}, q);
      BytesTake(m, ps - {q}, r);
      assert ps - {r} - {q} == ps - {q} - {r};
    }
  }

  lemma {:induction false} BytesUnion(m: Files, a: set<Path>, b: set<Path>)
    requires forall r :: r in a + b ==> r in m && m[r].File?
    requires a !! b
    ensures Bytes(m, a + b) == Bytes(m, a) + Bytes(m, b)
    decreases a
  {
    if a == {} {
      assert a + b == b;
    } else {
      var q :| q in a;
      BytesTake(m, a, q);
      BytesTake(m, a + b, q);
      BytesUnion(m, a - {q}, b);
      assert a + b - {q} == (a - {q}) + b;
    }
  }

  /** The files below those children of a directory. */
  ghost function FilesUnder(m: Files, dir: Path, names: seq<string>): set<Path> {
    set q | q in m && dir < q && q[|dir|] in names && m[q].File?
  }

  lemma FilesUnderFirst(m: Files, dir: Path, names: seq<string>)
    requires names != [] && names[0] !in names[1..]
    ensures FilesUnder(m, dir, names) == FilesBelow(m, dir + [names[0]]) + FilesUnder(m, dir, names[1..])
    ensures FilesBelow(m, dir + [names[0]]) !! FilesUnder(m, dir, names[1..])
  {
    var first := dir + [names[0]];
    assert names == [names[0]] + names[1..];
    forall q: Path ensures first <= q <==> dir < q && q[|dir|] == names[0] {
      if dir < q && q[|dir|] == names[0] {
        assert q[..|first|] == first;
      }
    }
  }

  /** The totals are the number of files below, and their size. */
  lemma {:induction false} TotalCountsFiles(m: Files, p: Path, item: CopyPlan.Item)
    requires WellFormed(m) && Scans(m, p, item) && Seen(item)
    ensures CopyPlan.Total(item) == CopyPlan.Plan(|FilesBelow(m, p)|, Bytes(m, FilesBelow(m, p)))
    decreases item, 1
  {
    hide WellFormed, Seen, Scans;
    ItemParts(m, p, item);
    match item
    case File(_) =>
      forall q | q in m && p <= q ensures q == p {
        BelowFile(m, p, q);
      }
      assert FilesBelow(m, p) == {p};
      BytesTake(m, {p}, p);
      assert {p} - {p} == {};
    case Link =>
      forall q | q in m && p <= q ensures q == p {
        BelowLink(m, p, q);
      }
      assert FilesBelow(m, p) == {};
    case Folder(_, items) =>
      var names :| Enumerates(m, p, names) && ScansAll(m, p, names, items);
      forall q | q in m && p <= q && m[q].File? ensures q in FilesUnder(m, p, names) {
        assert p != q;
        var n := ThroughScanned(m, p, q, names);
      }
      assert FilesBelow(m, p) == FilesUnder(m, p, names);
      TotalsCountFiles(m, p, names, items);
    case _ =>
  }

  lemma {:induction false} TotalsCountFiles(m: Files, dir: Path, names: seq<string>, items: seq<CopyPlan.Item>)
    requires WellFormed(m) && ScansAll(m, dir, names, items) && AllSeen(items)
    requires forall i, j :: 0 <= i < j < |names| ==> names[i] != names[j]
    ensures CopyPlan.Totals(items) == CopyPlan.Plan(|FilesUnder(m, dir, names)|, Bytes(m, FilesUnder(m, dir, names)))
    decreases items, 0
  {
    hide *;
    if items == [] {
      NoneUnder(m, dir, names, items);
    } else {
      FirstScanned(m, dir, names, items);
      TotalCountsFiles(m, dir + [names[0]], items[0]);
      TotalsCountFiles(m, dir, names[1..], items[1..]);
      FilesUnderFirst(m, dir, names);
      AreFiles(m, dir, names);
      BytesUnion(m, FilesBelow(m, dir + [names[0]]), FilesUnder(m, dir, names[1..]));
      CopyPlan.TotalsFirst(items[0], items[1..]);
      CopyPlan.AddValue(CopyPlan.Total(items[0]), CopyPlan.Totals(items[1..]));
      assert items == [items[0]] + items[1..];
    }
  }

  lemma NoneUnder(m: Files, dir: Path, names: seq<string>, items: seq<CopyPlan.Item>)
    requires items == [] && ScansAll(m, dir, names, items)
    ensures FilesUnder(m, dir, names) == {} && Bytes(m, {}) == 0
    ensures CopyPlan.Totals(items) == CopyPlan.Plan(0, 0)
  {
  }

  lemma FirstScanned(m: Files, dir: Path, names: seq<string>, items: seq<CopyPlan.Item>)
    requires items != [] && ScansAll(m, dir, names, items) && AllSeen(items)
    requires forall i, j :: 0 <= i < j < |names| ==> names[i] != names[j]
    ensures names != [] && names[0] !in names[1..]
    ensures Scans(m, dir + [names[0]], items[0]) && Seen(items[0])
    ensures ScansAll(m, dir, names[1..], items[1..]) && AllSeen(items[1..])
  {
    hide Scans, Seen;
  }

  lemma AreFiles(m: Files, dir: Path, names: seq<string>)
    requires names != []
    ensures forall q :: q in FilesBelow(m, dir + [names[0]]) + FilesUnder(m, dir, names[1..]) ==> q in m && m[q].File?
    ensures forall q :: q in FilesUnder(m, dir, names) ==> q in m && m[q].File?
  {
  }

  lemma ItemParts(m: Files, p: Path, item: CopyPlan.Item)
    requires Scans(m, p, item) && Seen(item)
    ensures p in m && !item.Unstatable?
    ensures item.File? ==> m[p].File? && item.size == |m[p].bytes|
    ensures item.Link? ==> m[p].Link?
    ensures item.Folder? ==>
              && m[p] == Dir && item.readable && AllSeen(item.items)
              && exists names :: Enumerates(m, p, names) && ScansAll(m, p, names, item.items)
  {
  }

  lemma BelowLink(m: Files, p: Path, q: Path)
    requires WellFormed(m) && p in m && m[p].Link? && q in m && p <= q
    ensures q == p
  {
    if p != q {
      ThroughChild(m, p, q);
    }
  }

  // ---------------------------------------------------------------- acceptance

  /** What the scan lets pass at this depth is what is small there. */
  lemma {:induction false} CopyableOnTree(m: Files, p: Path, item: CopyPlan.Item, depth: nat)
    requires WellFormed(m) && Scans(m, p, item) && Seen(item) && depth <= 9
    ensures CopyPlan.Copyable(item, depth) <==> forall q :: q in m && p <= q ==> SmallEntry(m[q], |q| - |p| + depth)
    decreases item
  {
    hide WellFormed, Seen, Scans;
    ItemParts(m, p, item);
    match item
    case File(_) =>
      forall q | q in m && p <= q ensures q == p {
        BelowFile(m, p, q);
      }
    case Link =>
      assert p <= p;
    case Folder(_, items) =>
      assert p <= p;
      var names :| Enumerates(m, p, names) && ScansAll(m, p, names, items);
      if depth <= 8 {
        forall i | 0 <= i < |items|
          ensures CopyPlan.Copyable(items[i], depth + 1) <==>
                  forall q :: q in m && p + [names[i]] <= q ==> SmallEntry(m[q], |q| - |p| + depth)
          ensures forall q :: q in m && p + [names[i]] <= q ==> p <= q
        {
          CopyableOnTree(m, p + [names[i]], items[i], depth + 1);
          assert p <= p + [names[i]];
        }
        forall q | q in m && p <= q && p != q ensures exists i :: 0 <= i < |names| && p + [names[i]] <= q {
          assert p < q;
          var n := ThroughScanned(m, p, q, names);
        }
      }
    case _ =>
  }

  /**
   Read completely, a directory passes the scan exactly when it is small throughout,
   with no more than 500 files of no more than 16 MiB together.
   */
  lemma AdmittedIffSmall(m: Files, source: Path, scan: CopyPlan.Item)
    requires WellFormed(m) && scan.Folder? && Scans(m, source, scan) && Seen(scan)
    ensures CopyPlan.Admit(scan).Ok? <==>
            && Small(m, source)
            && |FilesBelow(m, source)| <= 500
            && Bytes(m, FilesBelow(m, source)) <= 16 * 1024 * 1024
  {
    hide WellFormed, Scans, Seen, SmallEntry;
    CopyPlan.AdmitExact(scan);
    TotalCountsFiles(m, source, scan);
    CopyableOnTree(m, source, scan, 0);
  }
}
