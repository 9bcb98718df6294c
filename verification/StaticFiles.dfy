/**
 Serving files below a site root: the candidate path of a request, its nearest
 existing ancestor, and the confinement of what is opened to the root.
 */
module StaticFiles {
  import opened Wrappers

  /** `Here` is a leading `.` of a relative path. */
  datatype Part = Name(name: string) | Up | Here

  /** Equality of paths is equality of components. */
  datatype Path = Path(absolute: bool, parts: seq<Part>)

  /** What the operating system answers; nothing is assumed of it but in `Lawful`. */
  datatype Fs = Fs(present: Path -> bool, canonical: Path -> Option<Path>, isDir: Path -> bool, read: Path -> bool)

  predicate StartsWith(p: Path, q: Path) {
    p.absolute == q.absolute && q.parts <= p.parts
  }

  function Joined(p: Path, parts: seq<Part>): Path {
    Path(p.absolute, p.parts + parts)
  }

  /** The path cut to its first `n` components. */
  function Cut(p: Path, n: nat): Path
    requires n <= |p.parts|
  {
    Path(p.absolute, p.parts[..n])
  }

  function CanonicalRoot(fs: Fs, root: Path): Path {
    var c := fs.canonical(root);
    if c.Some? then c.value else root
  }

  /** The names among the components, in order. */
  function Names(parts: seq<Part>): seq<Part> {
    if parts == [] then []
    else if parts[0].Name? then [parts[0]] + Names(parts[1..])
    else Names(parts[1..])
  }

  /** How much of the path's first `n` components exists: the length of its longest existing prefix. */
  function Existing(fs: Fs, p: Path, n: nat): (r: Option<nat>)
    requires n <= |p.parts|
    ensures r.Some? ==> r.value <= n && fs.present(Cut(p, r.value))
  {
    if fs.present(Cut(p, n)) then Some(n)
    else if n == 0 then None
    else Existing(fs, p, n - 1)
  }

  lemma {:induction false} ExistingIsLongest(fs: Fs, p: Path, n: nat, k: nat)
    requires k <= n <= |p.parts| && fs.present(Cut(p, k))
    ensures Existing(fs, p, n).Some? && Existing(fs, p, n).value >= k
  {
    if !fs.present(Cut(p, n)) {
      ExistingIsLongest(fs, p, n - 1, k);
    }
  }

  /** The confined path: the canonical nearest existing ancestor, if it is inside, and the missing names. */
  function Confined(fs: Fs, root: Path, candidate: Path): Option<Path> {
    match Existing(fs, candidate, |candidate.parts|)
    case None => None
    case Some(n) =>
      var anchor := fs.canonical(Cut(candidate, n));
      if anchor.Some? && StartsWith(anchor.value, CanonicalRoot(fs, root))
      then Some(Joined(anchor.value, Names(candidate.parts[n..])))
      else None
  }

  /** The path's first `n` components exist, and no more of them do. */
  ghost predicate Nearest(fs: Fs, p: Path, n: nat) {
    n <= |p.parts| && fs.present(Cut(p, n)) && forall k :: n < k <= |p.parts| ==> !fs.present(Cut(p, k))
  }

  lemma NearestIs(fs: Fs, p: Path, n: nat)
    ensures Nearest(fs, p, n) <==> Existing(fs, p, |p.parts|) == Some(n)
  {
    if Nearest(fs, p, n) {
      ExistingIsLongest(fs, p, |p.parts|, n);
    }
    if Existing(fs, p, |p.parts|) == Some(n) {
      forall k | n < k <= |p.parts| ensures !fs.present(Cut(p, k)) {
        if fs.present(Cut(p, k)) {
          ExistingIsLongest(fs, p, |p.parts|, k);
        }
      }
    }
  }

  /** The nearest existing ancestor decides: confined exactly when it really is inside, with the missing names behind it. */
  lemma ConfinedByNearest(fs: Fs, root: Path, candidate: Path, n: nat)
    requires Nearest(fs, candidate, n)
    ensures var anchor := fs.canonical(Cut(candidate, n)); var r := Confined(fs, root, candidate);
      && (r.Some? <==> anchor.Some? && StartsWith(anchor.value, CanonicalRoot(fs, root)))
      && (r.Some? ==> r.value == Joined(anchor.value, Names(candidate.parts[n..])))
  {
    NearestIs(fs, candidate, n);
  }

  method ConfineToRoot(fs: Fs, root: Path, candidate: Path) returns (r: Option<Path>)
    ensures r == Confined(fs, root, candidate)
    ensures r.Some? ==> StartsWith(r.value, CanonicalRoot(fs, root))
  {
    var canonicalRoot := CanonicalRoot(fs, root);
    var anchor := candidate;
    var suffix: seq<Part> := [];
    while !fs.present(anchor)
      invariant |anchor.parts| <= |candidate.parts| && anchor == Cut(candidate, |anchor.parts|)
      invariant suffix == Names(candidate.parts[|anchor.parts|..])
      invariant Existing(fs, candidate, |candidate.parts|) == Existing(fs, candidate, |anchor.parts|)
      decreases |anchor.parts|
    {
      if anchor.parts == [] {
        return None;
      }
      var last := |anchor.parts| - 1;
      assert candidate.parts[last..][1..] == candidate.parts[last + 1..];
      if anchor.parts[last].Name? {
        suffix := [anchor.parts[last]] + suffix;
      }
      anchor := Path(anchor.absolute, anchor.parts[..last]);
    }
    var canonicalAnchor := fs.canonical(anchor);
    if canonicalAnchor.None? || !StartsWith(canonicalAnchor.value, canonicalRoot) {
      return None;
    }
    var resolved := if suffix == [] then canonicalAnchor.value else Joined(canonicalAnchor.value, suffix);
    assert resolved == Joined(canonicalAnchor.value, suffix);
    if !StartsWith(resolved, canonicalRoot) {
      return None;
    }
    r := Some(resolved);
  }

  /** Nothing but names among the components. */
  predicate Plain(parts: seq<Part>) {
    forall i :: 0 <= i < |parts| ==> parts[i].Name?
  }

  lemma {:induction false} NamesKeepAllIffPlain(parts: seq<Part>)
    ensures Plain(Names(parts)) && |Names(parts)| <= |parts|
    ensures Names(parts) == parts <==> Plain(parts)
  {
    if parts != [] {
      NamesKeepAllIffPlain(parts[1..]);
      if Plain(parts) {
        assert Plain(parts[1..]);
      }
      assert parts == [parts[0]] + parts[1..];
    }
  }

  /** A `..` among the missing components is lost: ancestor and suffix make up the candidate exactly when there is none. */
  lemma SuffixRebuildsIffPlain(fs: Fs, candidate: Path, n: nat)
    requires Existing(fs, candidate, |candidate.parts|) == Some(n)
    ensures Joined(Cut(candidate, n), Names(candidate.parts[n..])) == candidate <==> Plain(candidate.parts[n..])
  {
    NamesKeepAllIffPlain(candidate.parts[n..]);
    assert candidate.parts[..n] + candidate.parts[n..] == candidate.parts;
    if Joined(Cut(candidate, n), Names(candidate.parts[n..])) == candidate {
      assert (candidate.parts[..n] + Names(candidate.parts[n..]))[n..] == Names(candidate.parts[n..]);
    }
  }

  /** Whatever the operating system answers, an existing candidate resolves to its canonical path or to nothing. */
  lemma ExistingCandidateIsCanonical(fs: Fs, root: Path, candidate: Path)
    requires fs.present(candidate)
    ensures Confined(fs, root, candidate) ==
            if fs.canonical(candidate).Some? && StartsWith(fs.canonical(candidate).value, CanonicalRoot(fs, root))
            then fs.canonical(candidate) else None
  {
    var n := |candidate.parts|;
    assert Cut(candidate, n) == candidate && candidate.parts[n..] == [];
    if fs.canonical(candidate).Some? {
      assert Joined(fs.canonical(candidate).value, []) == fs.canonical(candidate).value;
    }
  }

  /** What exists has a canonical path, and resolving goes through canonical paths unchanged. */
  ghost predicate Lawful(fs: Fs) {
    && (forall p :: fs.present(p) <==> fs.canonical(p).Some?)
    && (forall p, rest :: fs.canonical(p).Some? ==> fs.canonical(Joined(fs.canonical(p).value, rest)) == fs.canonical(Joined(p, rest)))
  }

  /** Opening the confined path opens what the candidate names, and that is inside the root. */
  lemma OpensTheCandidateInsideTheRoot(fs: Fs, root: Path, candidate: Path)
    requires Lawful(fs) && Confined(fs, root, candidate).Some?
    requires Plain(candidate.parts[Existing(fs, candidate, |candidate.parts|).value..])
    ensures var target := fs.canonical(Confined(fs, root, candidate).value);
            target == fs.canonical(candidate) && (target.Some? ==> StartsWith(target.value, CanonicalRoot(fs, root)))
  {
    var n := Existing(fs, candidate, |candidate.parts|).value;
    SuffixRebuildsIffPlain(fs, candidate, n);
    var anchor := Cut(candidate, n);
    var suffix := Names(candidate.parts[n..]);
    assert fs.canonical(Joined(fs.canonical(anchor).value, suffix)) == fs.canonical(Joined(anchor, suffix));
    if fs.canonical(candidate).Some? {
      assert Cut(candidate, |candidate.parts|) == candidate;
      ExistingCandidateIsCanonical(fs, root, candidate);
    }
  }

  // ----------------------------------------------------------------- requests

  /** The candidate path of a request's segments; `..` is refused. */
  function Candidate(root: Path, segments: seq<string>): (r: Option<Path>)
    ensures r.Some? ==> r.value.absolute == root.absolute && root.parts <= r.value.parts && Plain(r.value.parts[|root.parts|..])
  {
    if segments == [] then Some(root)
    else
      var last := segments[|segments| - 1];
      var before := Candidate(root, segments[..|segments| - 1]);
      if before.None? || last == ".." then None
      else if last == "" || last == "." then before
      else Some(Joined(before.value, [Name(last)]))
  }

  function Index(fs: Fs, candidate: Path): Path {
    if fs.isDir(candidate) then Joined(candidate, [Name("index.html")]) else candidate
  }

  lemma {:induction false} DotDotRefused(root: Path, segments: seq<string>, k: nat)
    requires k < |segments| && segments[k] == ".."
    ensures Candidate(root, segments).None?
  {
    var n := |segments| - 1;
    if k < n {
      DotDotRefused(root, segments[..n], k);
    }
  }

  /** The path whose bytes answer a request: the file asked for, or the app shell in its place. */
  function Answer(fs: Fs, root: Path, segments: seq<string>): Option<Path> {
    var c := Candidate(root, segments);
    var asked := if c.None? then None else Confined(fs, root, Index(fs, c.value));
    var shell := Confined(fs, root, Joined(root, [Name("index.html")]));
    if asked.None? then None
    else if fs.read(asked.value) then asked
    else if shell.Some? && fs.read(shell.value) then shell
    else None
  }

  /** The segments that name something. */
  function Wanted(segments: seq<string>): seq<Part> {
    if segments == [] then []
    else if segments[0] == "" || segments[0] == "." then Wanted(segments[1..])
    else [Name(segments[0])] + Wanted(segments[1..])
  }

  /** The path asked for: what the segments name below the root; of a directory its index page. */
  function AskedFor(fs: Fs, root: Path, segments: seq<string>): Path {
    var p := Joined(root, Wanted(segments));
    if fs.isDir(p) then Joined(p, [Name("index.html")]) else p
  }

  lemma {:induction false} WantedLast(segments: seq<string>, last: string)
    ensures Wanted(segments + [last]) == Wanted(segments) + if last == "" || last == "." then [] else [Name(last)]
  {
    if segments == [] {
      assert [last][1..] == [];
    } else {
      WantedLast(segments[1..], last);
      assert (segments + [last])[1..] == segments[1..] + [last];
    }
  }

  lemma {:induction false} CandidateIsWanted(root: Path, segments: seq<string>)
    requires ".." !in segments
    ensures Candidate(root, segments) == Some(Joined(root, Wanted(segments)))
  {
    if segments == [] {
      assert root.parts + [] == root.parts;
    } else {
      var n := |segments| - 1;
      CandidateIsWanted(root, segments[..n]);
      WantedLast(segments[..n], segments[n]);
      assert segments == segments[..n] + [segments[n]];
      assert root.parts + Wanted(segments[..n]) + [Name(segments[n])] == root.parts + (Wanted(segments[..n]) + [Name(segments[n])]);
      assert root.parts + (Wanted(segments[..n]) + []) == root.parts + Wanted(segments[..n]);
    }
  }

  /** The request's answer: the file asked for where it can be read, else the app shell where that can be. */
  ghost predicate Serves(fs: Fs, root: Path, segments: seq<string>, served: Option<Path>) {
    var asked := Confined(fs, root, AskedFor(fs, root, segments));
    var shell := Confined(fs, root, Joined(root, [Name("index.html")]));
    var found, fallback := asked.Some? && fs.read(asked.value), shell.Some? && fs.read(shell.value);
    && (served.None? <==> ".." in segments || asked.None? || (!found && !fallback))
    && (served.Some? && found ==> served == asked)
    && (served.Some? && !found ==> served == shell)
  }

  lemma AnswerServes(fs: Fs, root: Path, segments: seq<string>)
    ensures Serves(fs, root, segments, Answer(fs, root, segments))
  {
    hide Confined, Existing, Candidate, Wanted;
    if ".." in segments {
      var k :| 0 <= k < |segments| && segments[k] == "..";
      DotDotRefused(root, segments, k);
    } else {
      CandidateIsWanted(root, segments);
    }
  }

  /** What is asked for exists, lies inside the root and can be read. */
  predicate CanBeServed(fs: Fs, root: Path, asked: Path) {
    && fs.canonical(asked).Some? && fs.canonical(root).Some?
    && StartsWith(fs.canonical(asked).value, fs.canonical(root).value)
    && fs.read(fs.canonical(asked).value)
  }

  lemma FileConfined(fs: Fs, root: Path, asked: Path)
    requires Lawful(fs) && CanBeServed(fs, root, asked)
    ensures Confined(fs, root, asked) == fs.canonical(asked)
  {
    hide Confined;
    ExistingCandidateIsCanonical(fs, root, asked);
  }

  method ServeStatic(fs: Fs, root: Path, segments: seq<string>) returns (served: Option<Path>)
    ensures served == Answer(fs, root, segments)
    ensures Serves(fs, root, segments, served)
    // A file of the site is served for its own path.
    ensures Lawful(fs) && ".." !in segments && CanBeServed(fs, root, AskedFor(fs, root, segments)) ==>
      served == fs.canonical(AskedFor(fs, root, segments))
  {
    AnswerServes(fs, root, segments);
    if Lawful(fs) && CanBeServed(fs, root, AskedFor(fs, root, segments)) {
      FileConfined(fs, root, AskedFor(fs, root, segments));
    }
    hide Confined, Existing;
    var candidate := root;
    for i := 0 to |segments|
      invariant Candidate(root, segments[..i]) == Some(candidate)
    {
      assert segments[..i + 1][..i] == segments[..i];
      if segments[i] == "" || segments[i] == "." {
        continue;
      }
      if segments[i] == ".." {
        DotDotRefused(root, segments, i);
        return None;
      }
      candidate := Joined(candidate, [Name(segments[i])]);
    }
    assert segments[..|segments|] == segments;
    if fs.isDir(candidate) {
      candidate := Joined(candidate, [Name("index.html")]);
    }
    var asked := ConfineToRoot(fs, root, candidate);
    if asked.None? {
      return None;
    }
    if fs.read(asked.value) {
      return asked;
    }
    var shell := ConfineToRoot(fs, root, Joined(root, [Name("index.html")]));
    if shell.Some? && fs.read(shell.value) {
      return shell;
    }
    served := None;
  }

  /** A route of the app, of which nothing exists below the root, gets the app shell. */
  lemma RouteGetsShell(fs: Fs, root: Path, segments: seq<string>)
    requires Lawful(fs) && fs.present(root) && ".." !in segments
    requires Nearest(fs, AskedFor(fs, root, segments), |root.parts|)
    requires !fs.read(Joined(fs.canonical(root).value, AskedFor(fs, root, segments).parts[|root.parts|..]))
    requires CanBeServed(fs, root, Joined(root, [Name("index.html")]))
    ensures Answer(fs, root, segments) == fs.canonical(Joined(root, [Name("index.html")]))
  {
    hide Confined, Answer, Existing;
    var asked := AskedFor(fs, root, segments);
    WantedPlain(segments);
    assert asked.parts[..|root.parts|] == root.parts && Cut(asked, |root.parts|) == root;
    NamesKeepAllIffPlain(asked.parts[|root.parts|..]);
    ConfinedByNearest(fs, root, asked, |root.parts|);
    FileConfined(fs, root, Joined(root, [Name("index.html")]));
    AnswerServes(fs, root, segments);
  }

  lemma {:induction false} WantedPlain(segments: seq<string>)
    ensures Plain(Wanted(segments))
  {
    if segments != [] {
      WantedPlain(segments[1..]);
    }
  }

  lemma PlainTail(p: Path, from: nat, n: nat)
    requires from <= n <= |p.parts| && Plain(p.parts[from..])
    ensures Plain(p.parts[n..])
  {
    forall i | 0 <= i < |p.parts[n..]| ensures p.parts[n..][i].Name? {
      assert p.parts[n..][i] == p.parts[from..][n - from + i];
    }
  }

  /** On a site whose root exists no request is answered from outside it, and no request opens anything but what its path names. */
  lemma RequestsStayInside(fs: Fs, root: Path, segments: seq<string>)
    requires Lawful(fs) && fs.present(root) && Answer(fs, root, segments).Some?
    ensures var c := Candidate(root, segments);
            var target := fs.canonical(Answer(fs, root, segments).value);
            && (target == fs.canonical(Index(fs, c.value)) || target == fs.canonical(Joined(root, [Name("index.html")])))
            && (target.Some? ==> StartsWith(target.value, fs.canonical(root).value))
  {
    hide Confined, Existing;
    var c := Candidate(root, segments).value;
    assert Plain(Index(fs, c).parts[|root.parts|..]) by {
      assert Joined(c, [Name("index.html")]).parts[|root.parts|..] == c.parts[|root.parts|..] + [Name("index.html")];
    }
    var shell := Joined(root, [Name("index.html")]);
    assert Plain(shell.parts[|root.parts|..]);
    if Answer(fs, root, segments) == Confined(fs, root, Index(fs, c)) {
      BelowRoot(fs, root, Index(fs, c));
    } else {
      BelowRoot(fs, root, shell);
    }
  }

  lemma BelowRoot(fs: Fs, root: Path, candidate: Path)
    requires Lawful(fs) && fs.present(root) && Confined(fs, root, candidate).Some?
    requires candidate.absolute == root.absolute && root.parts <= candidate.parts && Plain(candidate.parts[|root.parts|..])
    ensures var target := fs.canonical(Confined(fs, root, candidate).value);
            target == fs.canonical(candidate) && (target.Some? ==> StartsWith(target.value, fs.canonical(root).value))
  {
    assert Cut(candidate, |root.parts|) == root;
    ExistingIsLongest(fs, candidate, |candidate.parts|, |root.parts|);
    PlainTail(candidate, |root.parts|, Existing(fs, candidate, |candidate.parts|).value);
    OpensTheCandidateInsideTheRoot(fs, root, candidate);
  }
}
