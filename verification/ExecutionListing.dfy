/**
 The cross-engine execution listing: rows of three sources merged, sorted newest
 first, filtered and sliced; the same rows whatever order the stores enumerate.
 */
module ExecutionListing {
  import opened Wrappers
  import opened Sorting
  import Paging

  datatype Engine = Workflow | Agent | Chat

  /** `rest` stands for the fields that neither filter nor order. */
  datatype Row = Row(id: string, engine: Engine, status: string, start: int, definition: Option<string>, rest: string)

  datatype Filter = Filter(status: Option<string>, engine: Option<Engine>, definition: Option<string>, from: Option<int>, to: Option<int>)

  /** What the three sources enumerate: persisted workflow runs, live agent loops, persisted agent and chat runs. */
  datatype Stores = Stores(workflow: seq<Row>, live: seq<Row>, persisted: seq<Row>)

  predicate Typed(s: Stores) {
    && (forall r :: r in s.workflow ==> r.engine.Workflow?)
    && (forall r :: r in s.live ==> r.engine.Agent?)
    && (forall r :: r in s.persisted ==> !r.engine.Workflow?)
  }

  /** Storage holds one row per id. */
  predicate Keyed(s: Stores) {
    DistinctIds(s.persisted)
  }

  predicate DistinctIds(s: seq<Row>) {
    forall i, j :: 0 <= i < j < |s| ==> s[i].id != s[j].id
  }

  /** The conditions every stage of the listing checks again. */
  predicate MatchesFields(f: Option<Filter>, r: Row) {
    f.Some? ==>
      && (f.value.status.Some? ==> r.status == f.value.status.value)
      && (f.value.definition.Some? ==> r.definition == f.value.definition)
      && (f.value.from.Some? ==> r.start >= f.value.from.value)
      && (f.value.to.Some? ==> r.start <= f.value.to.value)
  }

  predicate MatchesEngine(f: Option<Filter>, r: Row) {
    f.Some? && f.value.engine.Some? ==> r.engine == f.value.engine.value
  }

  predicate Matches(f: Option<Filter>, r: Row) {
    MatchesFields(f, r) && MatchesEngine(f, r)
  }

  predicate Wants(f: Option<Filter>, engine: Engine) {
    f.Some? && f.value.engine.Some? ==> f.value.engine.value == engine
  }

  function Keep(p: Row -> bool, s: seq<Row>): seq<Row> {
    if s == [] then []
    else if p(s[0]) then [s[0]] + Keep(p, s[1..])
    else Keep(p, s[1..])
  }

  function Matching(f: Option<Filter>): Row -> bool {
    (r: Row) => Matches(f, r)
  }

  function FieldsMatching(f: Option<Filter>): Row -> bool {
    (r: Row) => MatchesFields(f, r)
  }

  /** Newest first, ids breaking ties. */
  predicate Before(a: Row, b: Row) {
    a.start > b.start || (a.start == b.start && LexLe(a.id, b.id))
  }

  predicate NoOlder(a: Row, b: Row) {
    a.start >= b.start
  }

  predicate HasId(s: seq<Row>, id: string) {
    exists i :: 0 <= i < |s| && s[i].id == id
  }

  function Unknown(s: seq<Row>): Row -> bool {
    (r: Row) => !HasId(s, r.id)
  }

  /** The records so far, and each stored row whose id they do not have yet. */
  function Joined(records: seq<Row>, stored: seq<Row>): seq<Row>
    decreases stored
  {
    if stored == [] then records
    else Joined(if HasId(records, stored[0].id) then records else records + [stored[0]], stored[1..])
  }

  function LiveRows(s: Stores, f: Option<Filter>): seq<Row> {
    if Wants(f, Agent) then s.live else []
  }

  function AgentRows(s: Stores, f: Option<Filter>): seq<Row> {
    Keep(Matching(f), Sort(NoOlder, Joined(LiveRows(s, f), Keep(Matching(f), s.persisted))))
  }

  /** The listing as it is put together; storage applies the filter by itself. */
  function Listed(s: Stores, f: Option<Filter>): seq<Row> {
    var workflow := if Wants(f, Workflow) then Keep(FieldsMatching(f), s.workflow) else [];
    var agent := if Wants(f, Agent) || Wants(f, Chat) then AgentRows(s, f) else [];
    Keep(FieldsMatching(f), Sort(Before, workflow + agent))
  }

  /** `retain`. */
  method Retain(p: Row -> bool, s: seq<Row>) returns (r: seq<Row>)
    ensures r == Keep(p, s)
  {
    r := [];
    for i := 0 to |s|
      invariant r + Keep(p, s[i..]) == Keep(p, s)
    {
      assert s[i..][1..] == s[i + 1..];
      if p(s[i]) {
        r := r + [s[i]];
      }
    }
  }

  method Summaries(s: Stores, f: Option<Filter>) returns (records: seq<Row>)
    ensures records == AgentRows(s, f)
  {
    hide Matches;
    records := if f.Some? && f.value.engine.Some? && f.value.engine.value != Agent then [] else s.live;
    var stored := Retain(Matching(f), s.persisted);
    ghost var all := Joined(records, stored);
    for i := 0 to |stored|
      invariant Joined(records, stored[i..]) == all
    {
      assert stored[i..][1..] == stored[i + 1..];
      if !HasId(records, stored[i].id) {
        records := records + [stored[i]];
      }
    }
    records := Sort(NoOlder, records);
    records := Retain(Matching(f), records);
  }

  /** One page of the listing and whether a following page exists. */
  method ListUnified(s: Stores, f: Option<Filter>, limit: nat, offset: nat) returns (page: seq<Row>, hasMore: bool)
    requires limit <= Paging.U64_MAX && |Listed(s, f)| <= Paging.U64_MAX
    ensures page == Paging.Window(Listed(s, f), offset, limit)
    ensures hasMore <==> |Listed(s, f)| > offset + limit
    // The rows of a page, and all of them together.
    ensures |page| <= limit && (hasMore ==> |page| == limit)
    ensures forall i, j :: 0 <= i < j < |page| ==> NewerFirst(page[i], page[j])
    ensures Typed(s) && Keyed(s) ==> forall r :: r in page ==> Listable(s, f, r)
    ensures Typed(s) && Keyed(s) && offset == 0 && !hasMore ==> forall r :: r in page <==> Listable(s, f, r)
  {
    hide AgentRows, MatchesFields, Matches, Keep, Sort, NewerFirst, Listable, Typed, Keyed;
    var merged: seq<Row> := [];
    if Wants(f, Workflow) {
      merged := Retain(FieldsMatching(f), s.workflow);
    }
    if Wants(f, Agent) || Wants(f, Chat) {
      var agent := Summaries(s, f);
      merged := merged + agent;
    }
    assert merged == (if Wants(f, Workflow) then Keep(FieldsMatching(f), s.workflow) else [])
                  + (if Wants(f, Agent) || Wants(f, Chat) then AgentRows(s, f) else []);
    merged := Sort(Before, merged);
    merged := Retain(FieldsMatching(f), merged);
    page, hasMore := Page(merged, limit, offset);
    PageRows(s, f, limit, offset, page, hasMore);
  }

  /** The rows of one page of the listing. */
  lemma PageRows(s: Stores, f: Option<Filter>, limit: nat, offset: nat, page: seq<Row>, hasMore: bool)
    requires page == Paging.Window(Listed(s, f), offset, limit)
    requires hasMore <==> |Listed(s, f)| > offset + limit
    ensures |page| <= limit && (hasMore ==> |page| == limit)
    ensures forall i, j :: 0 <= i < j < |page| ==> NewerFirst(page[i], page[j])
    ensures Typed(s) && Keyed(s) ==> forall r :: r in page ==> Listable(s, f, r)
    ensures Typed(s) && Keyed(s) && offset == 0 && !hasMore ==> forall r :: r in page <==> Listable(s, f, r)
  {
    hide Listed, NewerFirst, Listable, Typed, Keyed;
    ListedOrder(s, f);
    if Typed(s) && Keyed(s) {
      forall r ensures r in Listed(s, f) <==> Listable(s, f, r) {
        ListedRows(s, f, r);
      }
    }
  }

  method Page(merged: seq<Row>, limit: nat, offset: nat) returns (page: seq<Row>, hasMore: bool)
    requires limit <= Paging.U64_MAX && |merged| <= Paging.U64_MAX
    ensures page == Paging.Window(merged, offset, limit)
    ensures hasMore <==> |merged| > offset + limit
  {
    page := Paging.Window(merged, offset, Paging.SaturatingAdd(limit, 1));
    hasMore := |page| > limit;
    if hasMore {
      page := page[..limit];
    }
  }

  method CountUnified(s: Stores, f: Option<Filter>) returns (n: nat)
    requires |Listed(s, f)| <= Paging.U64_MAX
    ensures n == |Listed(s, f)|
    ensures Typed(s) && Keyed(s) ==> exists rows :: |rows| == n && IsListing(s, f, rows)
  {
    hide Listed, NewerFirst, Listable, Typed, Keyed;
    var page, _ := ListUnified(s, f, Paging.U64_MAX, 0);
    n := |page|;
  }

  // ------------------------------------------------------- what a listing is

  /** The row meets every condition the filter sets. */
  predicate Fits(f: Option<Filter>, r: Row) {
    match f
    case None => true
    case Some(want) =>
      && (want.status.None? || r.status == want.status.value)
      && (want.engine.None? || r.engine == want.engine.value)
      && (want.definition.None? || r.definition == Some(want.definition.value))
      && (want.from.None? || want.from.value <= r.start)
      && (want.to.None? || r.start <= want.to.value)
  }

  /** A stored row is listed unless a live loop has its id, and even then if only other engines are asked for. */
  predicate Listable(s: Stores, f: Option<Filter>, r: Row) {
    Fits(f, r) &&
    (|| r in s.workflow || r in s.live
     || (r in s.persisted
         && ((forall l :: l in s.live ==> l.id != r.id) || (f.Some? && f.value.engine.Some? && f.value.engine.value != Agent))))
  }

  /** The later start first; of two equal ones the smaller id. */
  ghost predicate NewerFirst(a: Row, b: Row) {
    a.start > b.start || (a.start == b.start && (a.id == b.id || Smaller(a.id, b.id)))
  }

  ghost predicate IsListing(s: Stores, f: Option<Filter>, rows: seq<Row>) {
    && (forall i, j :: 0 <= i < j < |rows| ==> NewerFirst(rows[i], rows[j]))
    && forall r :: r in rows <==> Listable(s, f, r)
  }

  lemma FitsMatches(f: Option<Filter>, r: Row)
    ensures Fits(f, r) <==> Matches(f, r)
  {
  }

  lemma HasIdIff(rows: seq<Row>, id: string)
    ensures HasId(rows, id) <==> !(forall l :: l in rows ==> l.id != id)
  {
  }

  /** Which rows are listed. */
  lemma ListedRows(s: Stores, f: Option<Filter>, r: Row)
    requires Typed(s) && Keyed(s)
    ensures r in Listed(s, f) <==> Listable(s, f, r)
  {
    FitsMatches(f, r);
    HasIdIff(s.live, r.id);
    CountsAgree(s, f, r);
    WantedCount(s, f, r);
    hide Fits, Matches, HasId, Listed, Wanted, Keyed;
    assert r in Listed(s, f) <==> multiset(Listed(s, f))[r] > 0;
    assert r in s.workflow <==> multiset(s.workflow)[r] > 0;
    assert r in s.live <==> multiset(s.live)[r] > 0;
    assert r in s.persisted <==> multiset(s.persisted)[r] > 0;
  }

  /** In which order. */
  lemma ListedOrder(s: Stores, f: Option<Filter>)
    ensures forall i, j :: 0 <= i < j < |Listed(s, f)| ==> NewerFirst(Listed(s, f)[i], Listed(s, f)[j])
  {
    hide Listed, Smaller, LexLe;
    BothSorted(s, f);
    forall i, j | 0 <= i < j < |Listed(s, f)| ensures NewerFirst(Listed(s, f)[i], Listed(s, f)[j]) {
      LexIsSmaller(Listed(s, f)[i].id, Listed(s, f)[j].id);
      assert Before(Listed(s, f)[i], Listed(s, f)[j]);
    }
  }

  // ------------------------------------------------------- what it should be

  /** Every run once: a live loop stands for its persisted record. */
  function Merged(s: Stores): seq<Row> {
    s.workflow + s.live + Keep(Unknown(s.live), s.persisted)
  }

  /** The matching runs, newest first. */
  function Wanted(s: Stores, f: Option<Filter>): seq<Row> {
    Sort(Before, Keep(Matching(f), Merged(s)))
  }

  lemma BeforeCompares()
    ensures Comparator(Before)
  {
    forall x: Row, y: Row ensures Before(x, y) || Before(y, x) {
      LexTotal(x.id, y.id);
    }
    forall x: Row, y: Row, z: Row | Before(x, y) && Before(y, z) ensures Before(x, z) {
      if LexLe(x.id, y.id) && LexLe(y.id, z.id) {
        LexTransitive(x.id, y.id, z.id);
      }
    }
  }

  lemma {:induction false} KeepCounts(p: Row -> bool, s: seq<Row>, r: Row)
    ensures multiset(Keep(p, s))[r] == if p(r) then multiset(s)[r] else 0
  {
    if s != [] {
      KeepCounts(p, s[1..], r);
      assert s == [s[0]] + s[1..];
    }
  }

  lemma KeepElements(p: Row -> bool, s: seq<Row>)
    ensures forall r :: r in Keep(p, s) <==> r in s && p(r)
  {
    forall r ensures r in Keep(p, s) <==> r in s && p(r) {
      KeepCounts(p, s, r);
      assert r in s <==> r in multiset(s);
      assert r in Keep(p, s) <==> r in multiset(Keep(p, s));
    }
  }

  lemma {:induction false} KeepDistinct(p: Row -> bool, s: seq<Row>)
    requires DistinctIds(s)
    ensures DistinctIds(Keep(p, s))
  {
    if s != [] {
      KeepDistinct(p, s[1..]);
      KeepElements(p, s[1..]);
      var rest := Keep(p, s[1..]);
      forall j | 0 <= j < |rest| ensures rest[j].id != s[0].id {
        assert rest[j] in s[1..];
      }
    }
  }

  lemma {:induction false} KeepSorted(p: Row -> bool, s: seq<Row>)
    requires Sorted(Before, s)
    ensures Sorted(Before, Keep(p, s))
  {
    hide Before;
    if s != [] {
      KeepSorted(p, s[1..]);
      KeepElements(p, s[1..]);
      var rest := Keep(p, s[1..]);
      forall j | 0 <= j < |rest| ensures Before(s[0], rest[j]) {
        assert rest[j] in s[1..];
      }
    }
  }

  /** With distinct ids, joining adds exactly the rows the live records do not shadow. */
  lemma {:induction false} JoinedIsUnshadowed(records: seq<Row>, stored: seq<Row>)
    requires DistinctIds(stored)
    ensures Joined(records, stored) == records + Keep(Unknown(records), stored)
    decreases stored
  {
    hide HasId;
    if stored != [] {
      var rest := stored[1..];
      if HasId(records, stored[0].id) {
        JoinedIsUnshadowed(records, rest);
      } else {
        var more := records + [stored[0]];
        JoinedIsUnshadowed(more, rest);
        forall r | r in rest ensures HasId(more, r.id) <==> HasId(records, r.id) {
          HasIdMore(records, stored[0], r.id);
        }
        KeepSame(Unknown(more), Unknown(records), rest);
      }
    }
  }

  lemma HasIdMore(records: seq<Row>, row: Row, id: string)
    ensures HasId(records + [row], id) <==> HasId(records, id) || row.id == id
  {
    var more := records + [row];
    if HasId(records, id) {
      var i :| 0 <= i < |records| && records[i].id == id;
      assert more[i].id == id;
    }
    assert more[|records|] == row;
  }

  lemma {:induction false} KeepSame(p: Row -> bool, q: Row -> bool, s: seq<Row>)
    requires forall r :: r in s ==> p(r) == q(r)
    ensures Keep(p, s) == Keep(q, s)
  {
    if s != [] {
      KeepSame(p, q, s[1..]);
    }
  }

  /** A persisted record the filter asks for by its engine, under the id of a live loop. */
  predicate Shadowed(s: Stores, f: Option<Filter>, r: Row) {
    r in s.persisted && HasId(s.live, r.id) && Matches(f, r) && !Wants(f, Agent)
  }

  lemma SortCounts(le: (Row, Row) -> bool, s: seq<Row>, r: Row)
    ensures multiset(Sort(le, s))[r] == multiset(s)[r]
  {
  }

  /** How often a row is in the agent side. */
  lemma AgentRowCount(s: Stores, f: Option<Filter>, r: Row)
    requires Keyed(s)
    ensures multiset(AgentRows(s, f))[r] ==
            if !Matches(f, r) then 0
            else multiset(LiveRows(s, f))[r] + if HasId(LiveRows(s, f), r.id) then 0 else multiset(s.persisted)[r]
  {
    hide Matches, Sort, HasId, LiveRows;
    var live := LiveRows(s, f);
    var stored := Keep(Matching(f), s.persisted);
    KeepDistinct(Matching(f), s.persisted);
    JoinedIsUnshadowed(live, stored);
    KeepCounts(Matching(f), s.persisted, r);
    KeepCounts(Unknown(live), stored, r);
    SortCounts(NoOlder, Joined(live, stored), r);
    KeepCounts(Matching(f), Sort(NoOlder, Joined(live, stored)), r);
  }

  lemma ListedCount(s: Stores, f: Option<Filter>, r: Row)
    requires Keyed(s)
    ensures multiset(Listed(s, f))[r] ==
            if !MatchesFields(f, r) then 0
            else (
              (if Wants(f, Workflow) then multiset(s.workflow)[r] else 0)
              + (if Wants(f, Agent) || Wants(f, Chat) then multiset(AgentRows(s, f))[r] else 0)
            )
  {
    hide MatchesFields, AgentRows, Sort, Wants;
    var workflow := if Wants(f, Workflow) then Keep(FieldsMatching(f), s.workflow) else [];
    var agent := if Wants(f, Agent) || Wants(f, Chat) then AgentRows(s, f) else [];
    KeepCounts(FieldsMatching(f), s.workflow, r);
    SortCounts(Before, workflow + agent, r);
    KeepCounts(FieldsMatching(f), Sort(Before, workflow + agent), r);
  }

  lemma WantedCount(s: Stores, f: Option<Filter>, r: Row)
    ensures multiset(Wanted(s, f))[r] ==
            if !Matches(f, r) then 0
            else multiset(s.workflow)[r] + multiset(s.live)[r] + if HasId(s.live, r.id) then 0 else multiset(s.persisted)[r]
  {
    hide Matches, HasId, Sort;
    KeepCounts(Unknown(s.live), s.persisted, r);
    KeepCounts(Matching(f), Merged(s), r);
    SortCounts(Before, Keep(Matching(f), Merged(s)), r);
  }

  lemma Absent(s: seq<Row>, r: Row)
    requires r !in s
    ensures multiset(s)[r] == 0
  {
  }

  /** Row by row, the listing and the matching runs differ exactly in the shadowed records. */
  lemma CountsAgree(s: Stores, f: Option<Filter>, r: Row)
    requires Typed(s) && Keyed(s)
    ensures multiset(Listed(s, f))[r] == multiset(Wanted(s, f))[r] + if Shadowed(s, f, r) then multiset(s.persisted)[r] else 0
  {
    hide MatchesFields, HasId, AgentRows, Listed, Wanted;
    AgentRowCount(s, f, r);
    ListedCount(s, f, r);
    WantedCount(s, f, r);
    NoIdInNone(r.id);
    if r !in s.workflow { Absent(s.workflow, r); }
    if r !in s.live { Absent(s.live, r); }
    if r !in s.persisted { Absent(s.persisted, r); }
  }

  lemma NoIdInNone(id: string)
    ensures !HasId([], id)
  {
  }

  /**
   The listing is the matching runs of the merge, newest first, exactly when no
   record asked for as a chat run has the id of a live agent loop.
   */
  lemma ListingIsSortedFilteredMerge(s: Stores, f: Option<Filter>)
    requires Typed(s) && Keyed(s) && Separates(Before, Merged(s))
    ensures Listed(s, f) == Wanted(s, f) <==> forall r :: !Shadowed(s, f, r)
  {
    hide Listed, Wanted, Before, Shadowed, Typed, Keyed;
    forall r ensures multiset(Listed(s, f))[r] == multiset(Wanted(s, f))[r] + if Shadowed(s, f, r) then multiset(s.persisted)[r] else 0 {
      CountsAgree(s, f, r);
    }
    if r :| Shadowed(s, f, r) {
      ShadowedStored(s, f, r);
      assert multiset(Listed(s, f))[r] != multiset(Wanted(s, f))[r];
    } else {
      assert multiset(Listed(s, f)) == multiset(Wanted(s, f));
      BothSorted(s, f);
      WantedSeparated(s, f);
      SortedUnique(Before, Wanted(s, f), Listed(s, f));
    }
  }

  lemma ShadowedStored(s: Stores, f: Option<Filter>, r: Row)
    requires Shadowed(s, f, r)
    ensures multiset(s.persisted)[r] > 0
  {
    assert r in multiset(s.persisted);
  }

  lemma BothSorted(s: Stores, f: Option<Filter>)
    ensures Comparator(Before) && Sorted(Before, Listed(s, f)) && Sorted(Before, Wanted(s, f))
  {
    hide AgentRows, Sort, Before;
    BeforeCompares();
    var workflow := if Wants(f, Workflow) then Keep(FieldsMatching(f), s.workflow) else [];
    var agent := if Wants(f, Agent) || Wants(f, Chat) then AgentRows(s, f) else [];
    SortSorted(Before, workflow + agent);
    KeepSorted(FieldsMatching(f), Sort(Before, workflow + agent));
    SortSorted(Before, Keep(Matching(f), Merged(s)));
  }

  lemma WantedSeparated(s: Stores, f: Option<Filter>)
    requires Separates(Before, Merged(s))
    ensures Separates(Before, Wanted(s, f))
  {
    hide Before, Merged;
    KeepElements(Matching(f), Merged(s));
    SortElements(Before, Keep(Matching(f), Merged(s)));
  }

  /** Whatever is asked for, the order tells the listed rows apart if it tells the runs of the merge apart. */
  lemma ListedSeparated(s: Stores, f: Option<Filter>)
    requires Typed(s) && Keyed(s) && Separates(Before, Merged(s))
    ensures Separates(Before, Listed(s, f))
  {
    hide Listed, Wanted, Before, Shadowed, Merged, Typed, Keyed;
    WantedSeparated(s, f);
    forall x, y | x in Listed(s, f) && y in Listed(s, f) && Before(x, y) && Before(y, x) ensures x == y {
      if r: Row :| Shadowed(s, f, r) {
        OnlyChat(s, f, r);
        ChatRowStored(s, f, x);
        ChatRowStored(s, f, y);
        SameIdSameRow(s, x, y);
      } else {
        ListedWanted(s, f, x);
        ListedWanted(s, f, y);
      }
    }
  }

  lemma OnlyChat(s: Stores, f: Option<Filter>, r: Row)
    requires Typed(s) && Shadowed(s, f, r)
    ensures !Wants(f, Workflow) && !Wants(f, Agent)
  {
  }

  lemma ChatRowStored(s: Stores, f: Option<Filter>, r: Row)
    requires Keyed(s) && !Wants(f, Workflow) && !Wants(f, Agent) && r in Listed(s, f)
    ensures r in s.persisted
  {
    hide Listed, AgentRows, Matches, MatchesFields, Keyed;
    assert r in multiset(Listed(s, f));
    ListedCount(s, f, r);
    AgentRowCount(s, f, r);
    NoIdInNone(r.id);
    assert r in multiset(s.persisted);
  }

  lemma SameIdSameRow(s: Stores, x: Row, y: Row)
    requires Keyed(s) && x in s.persisted && y in s.persisted && Before(x, y) && Before(y, x)
    ensures x == y
  {
    LexTotal(x.id, y.id);
    var i :| 0 <= i < |s.persisted| && s.persisted[i] == x;
    var j :| 0 <= j < |s.persisted| && s.persisted[j] == y;
    assert i == j;
  }

  lemma ListedWanted(s: Stores, f: Option<Filter>, r: Row)
    requires Typed(s) && Keyed(s) && r in Listed(s, f) && !Shadowed(s, f, r)
    ensures r in Wanted(s, f)
  {
    hide Listed, Wanted, Shadowed, Typed, Keyed;
    assert r in multiset(Listed(s, f));
    CountsAgree(s, f, r);
    assert r in multiset(Wanted(s, f));
  }

  /** The order in which the sources enumerate their rows shows nowhere in the listing, whatever is asked for. */
  lemma EnumerationOrderIrrelevant(s: Stores, t: Stores, f: Option<Filter>)
    requires Typed(s) && Keyed(s) && Separates(Before, Merged(s)) && Keyed(t)
    requires multiset(s.workflow) == multiset(t.workflow) && multiset(s.live) == multiset(t.live)
    requires multiset(s.persisted) == multiset(t.persisted)
    ensures Listed(s, f) == Listed(t, f)
  {
    hide Listed, Wanted, Before, Typed, Keyed, Shadowed, HasId, Matches;
    TypedAgain(s, t);
    SameIds(s.live, t.live);
    SameShadowed(s, t, f);
    forall r ensures multiset(Listed(s, f))[r] == multiset(Listed(t, f))[r] {
      WantedCount(s, f, r);
      WantedCount(t, f, r);
      CountsAgree(s, f, r);
      CountsAgree(t, f, r);
    }
    assert multiset(Listed(s, f)) == multiset(Listed(t, f));
    BothSorted(s, f);
    BothSorted(t, f);
    ListedSeparated(s, f);
    SortedUnique(Before, Listed(s, f), Listed(t, f));
  }

  lemma TypedAgain(s: Stores, t: Stores)
    requires Typed(s)
    requires multiset(s.workflow) == multiset(t.workflow) && multiset(s.live) == multiset(t.live)
    requires multiset(s.persisted) == multiset(t.persisted)
    ensures Typed(t)
  {
    forall r | r in t.workflow ensures r.engine.Workflow? { assert r in multiset(s.workflow); }
    forall r | r in t.live ensures r.engine.Agent? { assert r in multiset(s.live); }
    forall r | r in t.persisted ensures !r.engine.Workflow? { assert r in multiset(s.persisted); }
  }

  lemma SameShadowed(s: Stores, t: Stores, f: Option<Filter>)
    requires multiset(s.persisted) == multiset(t.persisted) && multiset(s.live) == multiset(t.live)
    ensures forall r :: Shadowed(s, f, r) <==> Shadowed(t, f, r)
  {
    hide Matches, HasId;
    SameIds(s.live, t.live);
    forall r ensures Shadowed(s, f, r) <==> Shadowed(t, f, r) {
      assert r in s.persisted <==> r in multiset(s.persisted);
      assert r in t.persisted <==> r in multiset(t.persisted);
    }
  }

  lemma SameIds(a: seq<Row>, b: seq<Row>)
    requires multiset(a) == multiset(b)
    ensures forall id :: HasId(a, id) <==> HasId(b, id)
  {
    assert forall r :: r in a <==> r in multiset(a);
    assert forall r :: r in b <==> r in multiset(b);
    forall id ensures HasId(a, id) <==> HasId(b, id) {
      if HasId(a, id) {
        var i :| 0 <= i < |a| && a[i].id == id;
        assert a[i] in b;
      }
      if HasId(b, id) {
        var i :| 0 <= i < |b| && b[i].id == id;
        assert b[i] in a;
      }
    }
  }

  /** Two runs that agree on start and id stay in the order their sources gave them. */
  lemma TiesKeepArrivalOrder(x: Row, y: Row)
    requires x.start == y.start && x.id == y.id
    ensures Sort(Before, [x, y]) == [x, y] && Sort(Before, [y, x]) == [y, x]
  {
    LexTotal(x.id, y.id);
    assert [x, y][1..] == [y] && [y, x][1..] == [x];
    assert Sort(Before, [y]) == [y] && Sort(Before, [x]) == [x] by {
      assert [y][1..] == [] && [x][1..] == [];
    }
  }

  /** A row is counted once for each time it is listed: the count is the number of matching runs. */
  lemma CountIsMatchingRuns(s: Stores, f: Option<Filter>)
    requires Typed(s) && Keyed(s) && Separates(Before, Merged(s)) && forall r :: !Shadowed(s, f, r)
    ensures |Listed(s, f)| == |Keep(Matching(f), Merged(s))|
  {
    hide Listed, Before;
    ListingIsSortedFilteredMerge(s, f);
  }

  /** Following cursors through the listing gives the matching runs, newest first, each once. */
  lemma FollowedListing(s: Stores, f: Option<Filter>, limits: seq<Option<nat>>, pages: seq<Paging.CursorPage<Row>>)
    requires Typed(s) && Keyed(s) && Separates(Before, Merged(s)) && forall r :: !Shadowed(s, f, r)
    requires |Listed(s, f)| <= Paging.U64_MAX && Paging.Followed(Listed(s, f), limits, pages)
    requires pages[|pages| - 1].next.None?
    ensures Paging.Items(pages) == Wanted(s, f)
  {
    hide Listed, Wanted, Before, Typed, Keyed;
    ListingIsSortedFilteredMerge(s, f);
    Paging.FollowingCursorsEnds(Listed(s, f), limits, pages, None);
  }
}
