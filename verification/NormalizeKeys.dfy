/**
 What the rewriting does to a document, key by key: what goes, what changes and what
 stays, told without the passes.
 */
module NormalizeKeys {
  import opened JsonModel
  import opened Normalize
  import opened NormalizeLaws

  // ------------------------------------------------------------- what may go

  /** One of the eight keys of a path item that hold an operation. */
  predicate HoldsOperation(key: string) {
    key in {"get", "put", "post", "delete", "options", "head", "patch", "trace"}
  }

  /** Some response of the operation is offered as an event stream. */
  predicate Streams(op: Json) {
    && op.Obj? && "responses" in op.fields && op.fields["responses"].Obj?
    && exists s :: s in op.fields["responses"].fields && OffersEvents(op.fields["responses"].fields[s])
  }

  predicate OffersEvents(response: Json) {
    && response.Obj? && "content" in response.fields && response.fields["content"].Obj?
    && "text/event-stream" in response.fields["content"].fields
  }

  /** The response documents a body. */
  predicate Documented(response: Json) {
    response.Obj? && "content" in response.fields && response.fields["content"].Obj? && |response.fields["content"].fields| > 0
  }

  /** Nothing is left of the path item once its streaming operations go. */
  predicate OnlyStreams(item: Json) {
    item.Obj? && forall m :: m in item.fields ==> HoldsOperation(m) && Streams(item.fields[m])
  }

  // --------------------------------------------------------------- what stays

  /** The same object but for one key, which stays. */
  ghost predicate SameBut(before: Fields, after: Fields, key: string) {
    && key in before && key in after
    && forall k :: k != key ==> (k in after <==> k in before) && (k in before ==> after[k] == before[k])
  }

  /** A response is gone exactly when it has no body and one beside it has. */
  ghost predicate ResponsesPruned(before: Fields, after: Fields) {
    && (forall s :: s in after <==> s in before && (Documented(before[s]) || forall t :: t in before ==> !Documented(before[t])))
    && forall s :: s in after ==> after[s] == before[s]
  }

  ghost predicate OperationPruned(before: Json, after: Json) {
    if before.Obj? && "responses" in before.fields && before.fields["responses"].Obj? then
      && after.Obj? && SameBut(before.fields, after.fields, "responses")
      && after.fields["responses"].Obj?
      && ResponsesPruned(before.fields["responses"].fields, after.fields["responses"].fields)
    else after == before
  }

  /** A key of a path item is gone exactly when it holds an operation that streams. */
  ghost predicate ItemPruned(before: Json, after: Json) {
    if before.Obj? then
      && after.Obj?
      && (forall m :: m in after.fields <==> m in before.fields && !(HoldsOperation(m) && Streams(before.fields[m])))
      && (forall m :: m in after.fields && HoldsOperation(m) ==> OperationPruned(before.fields[m], after.fields[m]))
      && (forall m :: m in after.fields && !HoldsOperation(m) ==> after.fields[m] == before.fields[m])
    else after == before
  }

  /** A path is gone exactly when nothing is left of it. */
  ghost predicate PathsPruned(before: Json, after: Json) {
    if before.Obj? then
      && after.Obj?
      && (forall p :: p in after.fields <==> p in before.fields && !OnlyStreams(before.fields[p]))
      && (forall p :: p in after.fields ==> ItemPruned(before.fields[p], after.fields[p]))
    else after == before
  }

  // ---------------------------------------------------------- the drop passes

  lemma StreamsIsSse(op: Json)
    ensures Streams(op) <==> IsSse(op)
  {
    if HasObj(op, "responses") {
      var responses := op.fields["responses"].fields;
      assert forall s :: s in responses ==> (OffersEvents(responses[s]) <==> OffersStream(responses[s]));
    }
  }

  lemma DocumentedIsContent(response: Json)
    ensures Documented(response) <==> HasContent(response)
  {
  }

  lemma MethodsHold(m: string)
    ensures HoldsOperation(m) <==> IsMethod(m)
  {
  }

  lemma ResponseKeys(before: Fields)
    ensures ResponsesPruned(before, KeepResponses(before))
  {
    forall s | s in before ensures Documented(before[s]) <==> HasContent(before[s]) {
      DocumentedIsContent(before[s]);
    }
    hide Documented, HasContent;
  }

  lemma OperationKeys(op: Json)
    ensures OperationPruned(op, TrimOperation(op))
  {
    hide KeepResponses, ResponsesPruned;
    if HasObj(op, "responses") {
      ResponseKeys(op.fields["responses"].fields);
    }
  }

  lemma ItemKeys(item: Json)
    ensures OnlyStreams(item) <==> KeepOperations(item) == Obj(map[])
    ensures ItemPruned(item, TrimItem(KeepOperations(item)))
  {
    hide IsMethod, HoldsOperation, IsSse, Streams, TrimOperation, OperationPruned;
    if item.Obj? {
      forall m | m in item.fields
        ensures HoldsOperation(m) <==> IsMethod(m)
        ensures Streams(item.fields[m]) <==> IsSse(item.fields[m])
        ensures OperationPruned(item.fields[m], TrimOperation(item.fields[m]))
      {
        MethodsHold(m);
        StreamsIsSse(item.fields[m]);
        OperationKeys(item.fields[m]);
      }
      var kept := KeepOperations(item).fields;
      if OnlyStreams(item) {
        assert kept == map[];
      }
      if kept == map[] {
        forall m | m in item.fields ensures HoldsOperation(m) && Streams(item.fields[m]) {
          assert m !in kept;
        }
      }
    }
  }

  lemma DropKeys(doc: Json)
    ensures !doc.Obj? || "paths" !in doc.fields ==> DropBare(DropSse(doc)) == doc
    ensures doc.Obj? && "paths" in doc.fields ==>
              && DropBare(DropSse(doc)).Obj?
              && SameBut(doc.fields, DropBare(DropSse(doc)).fields, "paths")
              && PathsPruned(doc.fields["paths"], DropBare(DropSse(doc)).fields["paths"])
  {
    hide KeepOperations, TrimItem, OnlyStreams, ItemPruned;
    if HasObj(doc, "paths") {
      var paths := doc.fields["paths"].fields;
      forall p | p in paths
        ensures OnlyStreams(paths[p]) <==> KeepOperations(paths[p]) == Obj(map[])
        ensures ItemPruned(paths[p], TrimItem(KeepOperations(paths[p])))
      {
        ItemKeys(paths[p]);
      }
    }
  }

  ghost predicate StreamsGone(before: Json, after: Json) {
    if before.Obj? then
      && after.Obj?
      && (forall m :: m in after.fields <==> m in before.fields && !(HoldsOperation(m) && Streams(before.fields[m])))
      && (forall m :: m in after.fields ==> after.fields[m] == before.fields[m])
    else after == before
  }

  /** The streaming operations are gone, with the paths that had nothing else; the rest is as it was. */
  ghost predicate StreamsDropped(before: Json, after: Json) {
    if before.Obj? && "paths" in before.fields && before.fields["paths"].Obj? then
      && after.Obj? && SameBut(before.fields, after.fields, "paths") && after.fields["paths"].Obj?
      && var from, to := before.fields["paths"].fields, after.fields["paths"].fields;
         && (forall p :: p in to <==> p in from && !OnlyStreams(from[p]))
         && (forall p :: p in to ==> StreamsGone(from[p], to[p]))
    else after == before
  }

  ghost predicate BareGone(before: Json, after: Json) {
    if before.Obj? then
      && after.Obj? && (forall m :: m in after.fields <==> m in before.fields)
      && (forall m :: m in after.fields && HoldsOperation(m) ==> OperationPruned(before.fields[m], after.fields[m]))
      && (forall m :: m in after.fields && !HoldsOperation(m) ==> after.fields[m] == before.fields[m])
    else after == before
  }

  /** The responses without a body are gone from operations that document one; the rest is as it was. */
  ghost predicate BareDropped(before: Json, after: Json) {
    if before.Obj? && "paths" in before.fields && before.fields["paths"].Obj? then
      && after.Obj? && SameBut(before.fields, after.fields, "paths") && after.fields["paths"].Obj?
      && var from, to := before.fields["paths"].fields, after.fields["paths"].fields;
         && (forall p :: p in to <==> p in from)
         && (forall p :: p in to ==> BareGone(from[p], to[p]))
    else after == before
  }

  lemma StreamsGoneFrom(item: Json)
    ensures OnlyStreams(item) <==> KeepOperations(item) == Obj(map[])
    ensures StreamsGone(item, KeepOperations(item))
  {
    ItemKeys(item);
    if item.Obj? {
      forall m | m in item.fields ensures HoldsOperation(m) && Streams(item.fields[m]) <==> IsMethod(m) && IsSse(item.fields[m]) {
        MethodsHold(m);
        StreamsIsSse(item.fields[m]);
      }
      hide IsMethod, HoldsOperation, IsSse, Streams;
    }
  }

  lemma BareGoneFrom(item: Json)
    ensures BareGone(item, TrimItem(item))
  {
    hide IsMethod, HoldsOperation, TrimOperation, OperationPruned;
    if item.Obj? {
      forall m | m in item.fields ensures (HoldsOperation(m) <==> IsMethod(m)) && OperationPruned(item.fields[m], TrimOperation(item.fields[m])) {
        MethodsHold(m);
        OperationKeys(item.fields[m]);
      }
    }
  }

  lemma DropSseKeys(doc: Json)
    ensures StreamsDropped(doc, DropSse(doc))
  {
    hide KeepOperations, OnlyStreams, StreamsGone;
    if HasObj(doc, "paths") {
      var paths := doc.fields["paths"].fields;
      forall p | p in paths
        ensures OnlyStreams(paths[p]) <==> KeepOperations(paths[p]) == Obj(map[])
        ensures StreamsGone(paths[p], KeepOperations(paths[p]))
      {
        StreamsGoneFrom(paths[p]);
      }
    }
  }

  lemma DropBareKeys(doc: Json)
    ensures BareDropped(doc, DropBare(doc))
  {
    hide TrimItem, BareGone;
    if HasObj(doc, "paths") {
      var paths := doc.fields["paths"].fields;
      forall p | p in paths ensures BareGone(paths[p], TrimItem(paths[p])) {
        BareGoneFrom(paths[p]);
      }
    }
  }

  // ---------------------------------------------------------- the schema pass

  predicate NullBranch(branch: Json) {
    branch.Obj? && "type" in branch.fields && branch.fields["type"] == Str("null")
  }

  /** The branches that are not the null branch, rewritten, in their order. */
  ghost predicate NullsOut(before: seq<Json>, after: seq<Json>, at: seq<nat>) {
    && |at| == |after|
    && (forall i, j :: 0 <= i < j < |at| ==> at[i] < at[j])
    && (forall j :: 0 <= j < |at| ==> at[j] < |before| && after[j] == NormNode(before[at[j]]))
    && forall i :: 0 <= i < |before| ==> (i in at <==> !NullBranch(before[i]))
  }

  ghost predicate CombinatorRewritten(before: Fields, after: Fields, key: string)
    requires key in before && key in after
  {
    if before[key].Arr? then after[key].Arr? && exists at :: NullsOut(before[key].items, after[key].items, at)
    else after[key] == NormNode(before[key])
  }

  predicate Names(entry: Json) {
    entry.Str? && entry.s != "null"
  }

  /** The first name listed besides "null"; "string" where there is none. */
  predicate FirstName(entries: seq<Json>, name: string) {
    if exists i :: 0 <= i < |entries| && Names(entries[i])
    then exists i :: 0 <= i < |entries| && Names(entries[i]) && entries[i].s == name && forall j :: 0 <= j < i ==> !Names(entries[j])
    else name == "string"
  }

  predicate TypeRewritten(before: Json, after: Json) {
    if before.Arr? && exists e :: e in before.items && e.Str? then after.Str? && FirstName(before.items, after.s)
    else after == NormNode(before)
  }

  predicate ListsNull(f: Fields) {
    "type" in f && f["type"].Arr? && Str("null") in f["type"].items
  }

  /** The combinator has a null branch, and others. */
  predicate DropsNull(f: Fields, key: string) {
    && key in f && f[key].Arr?
    && (exists e :: e in f[key].items && NullBranch(e))
    && exists e :: e in f[key].items && !NullBranch(e)
  }

  /** The mark is set by a type that lists "null"; by a combinator only where there was none. */
  predicate NullableRewritten(before: Fields, after: Fields) {
    && ("nullable" in after <==> "nullable" in before || ListsNull(before) || DropsNull(before, "oneOf") || DropsNull(before, "anyOf"))
    && ("nullable" in after ==>
          after["nullable"] == if "nullable" in before && !ListsNull(before) then NormNode(before["nullable"]) else Bool(true))
  }

  /** One object: four keys are rewritten, the others keep their values, themselves rewritten. */
  ghost predicate NodeRewritten(before: Fields, after: Fields) {
    && (forall k :: k != "nullable" ==> (k in after <==> k in before))
    && (forall k :: k in before && k !in {"oneOf", "anyOf", "type", "nullable"} ==> after[k] == NormNode(before[k]))
    && ("oneOf" in before ==> CombinatorRewritten(before, after, "oneOf"))
    && ("anyOf" in before ==> CombinatorRewritten(before, after, "anyOf"))
    && ("type" in before ==> TypeRewritten(before["type"], after["type"]))
    && NullableRewritten(before, after)
  }

  function OneOn(at: seq<nat>): (later: seq<nat>)
    ensures |later| == |at| && forall j :: 0 <= j < |at| ==> later[j] == at[j] + 1
  {
    seq(|at|, j requires 0 <= j < |at| => at[j] + 1)
  }

  lemma OneOnHolds(at: seq<nat>, i: nat)
    ensures i in OneOn(at) <==> i > 0 && i - 1 in at
  {
    if i > 0 && i - 1 in at {
      var j :| 0 <= j < |at| && at[j] == i - 1;
      assert OneOn(at)[j] == i;
    }
  }

  ghost predicate Rises(at: seq<nat>) {
    forall i, j :: 0 <= i < j < |at| ==> at[i] < at[j]
  }

  ghost predicate Points(before: seq<Json>, kept: seq<Json>, at: seq<nat>) {
    |at| == |kept| && forall j :: 0 <= j < |at| ==> at[j] < |before| && kept[j] == before[at[j]]
  }

  /** Some of the elements, in their order: those that are not the null branch. */
  ghost predicate Picks(before: seq<Json>, kept: seq<Json>, at: seq<nat>) {
    && Rises(at) && Points(before, kept, at)
    && forall i :: 0 <= i < |before| ==> (i in at <==> !NullBranch(before[i]))
  }

  lemma RisesLater(at: seq<nat>)
    requires Rises(at)
    ensures Rises(OneOn(at)) && Rises([0] + OneOn(at))
  {
  }

  lemma PointsLater(options: seq<Json>, kept: seq<Json>, at: seq<nat>)
    requires options != [] && Points(options[1..], kept, at)
    ensures Points(options, kept, OneOn(at)) && Points(options, [options[0]] + kept, [0] + OneOn(at))
  {
    var later := OneOn(at);
    forall j | 0 <= j < |later| ensures later[j] < |options| && kept[j] == options[later[j]] {
      assert options[1..][at[j]] == options[at[j] + 1];
    }
  }

  lemma PicksLater(options: seq<Json>, kept: seq<Json>, at: seq<nat>)
    requires options != [] && Picks(options[1..], kept, at)
    ensures NullBranch(options[0]) ==> Picks(options, kept, OneOn(at))
    ensures !NullBranch(options[0]) ==> Picks(options, [options[0]] + kept, [0] + OneOn(at))
  {
    RisesLater(at);
    PointsLater(options, kept, at);
    var later := OneOn(at);
    forall i | 0 <= i < |options| ensures i in later <==> i > 0 && !NullBranch(options[i]) {
      LaterPicked(options, kept, at, i);
    }
    hide NullBranch, Rises, Points, OneOn;
  }

  lemma LaterPicked(options: seq<Json>, kept: seq<Json>, at: seq<nat>, i: nat)
    requires options != [] && Picks(options[1..], kept, at) && i < |options|
    ensures i in OneOn(at) <==> i > 0 && !NullBranch(options[i])
  {
    hide NullBranch;
    OneOnHolds(at, i);
    if i > 0 {
      assert options[i] == options[1..][i - 1];
    }
  }

  lemma NonePicked()
    ensures Picks([], [], [])
  {
  }

  lemma {:induction false} RetainedAt(options: seq<Json>) returns (at: seq<nat>)
    ensures Picks(options, Retain(options), at)
  {
    hide Picks;
    if options == [] {
      at := [];
      NonePicked();
    } else {
      var rest := RetainedAt(options[1..]);
      PicksLater(options, Retain(options[1..]), rest);
      at := if IsNullBranch(options[0]) then OneOn(rest) else [0] + OneOn(rest);
    }
  }

  lemma {:induction false} PrimaryIsFirst(entries: seq<Json>)
    ensures NonNullNames(entries) == [] <==> forall i :: 0 <= i < |entries| ==> !Names(entries[i])
    ensures FirstName(entries, Primary(entries))
  {
    if entries != [] {
      var rest := entries[1..];
      PrimaryIsFirst(rest);
      assert forall i :: 0 < i < |entries| ==> entries[i] == rest[i - 1];
      if Names(entries[0]) {
        assert Primary(entries) == entries[0].s;
      } else {
        assert Primary(entries) == Primary(rest);
        if i :| 0 <= i < |rest| && Names(rest[i]) && rest[i].s == Primary(rest) && forall j :: 0 <= j < i ==> !Names(rest[j]) {
          assert Names(entries[i + 1]);
          assert forall j :: 0 <= j < i + 1 ==> !Names(entries[j]);
        }
      }
    }
  }

  /** Which keys one combinator changes. */
  lemma CollapseKeys(f: Fields, key: string)
    requires key != "nullable"
    ensures var g := Collapse(f, key);
      && (forall k :: k !in {key, "nullable"} ==> (k in g <==> k in f) && (k in f ==> g[k] == f[k]))
      && (key in g <==> key in f)
      && (key in f ==> g[key] == if f[key].Arr? then Arr(Retain(f[key].items)) else f[key])
      && ("nullable" in g <==> "nullable" in f || DropsNull(f, key))
      && ("nullable" in g ==> g["nullable"] == if "nullable" in f then f["nullable"] else Bool(true))
  {
    if key in f && f[key].Arr? {
      var options := f[key].items;
      var kept := Retain(options);
      assert forall e :: IsNullBranch(e) <==> NullBranch(e);
      if kept != [] {
        assert kept[0] in options;
      }
      if kept == options {
        assert forall e :: e in options ==> e in kept;
      }
      RetainShorter(options);
    }
  }

  lemma RetainShorter(options: seq<Json>)
    ensures Retain(options) == options <==> forall e :: e in options ==> !IsNullBranch(e)
    ensures Retain(options) == [] <==> forall e :: e in options ==> IsNullBranch(e)
  {
    var kept := Retain(options);
    if forall e :: e in options ==> !IsNullBranch(e) {
      RetainUnchanged(options);
    }
    if kept == options {
      assert forall e :: e in options ==> e in kept;
    }
    if kept != [] {
      assert kept[0] in kept;
    }
  }

  lemma RetypeKeys(f: Fields)
    ensures var g := Retype(f);
      && (forall k :: k !in {"type", "nullable"} ==> (k in g <==> k in f) && (k in f ==> g[k] == f[k]))
      && ("type" in g <==> "type" in f)
      && ("type" in f ==>
            if f["type"].Arr? && exists e :: e in f["type"].items && e.Str?
            then g["type"].Str? && FirstName(f["type"].items, g["type"].s)
            else g["type"] == f["type"])
      && ("nullable" in g <==> "nullable" in f || ListsNull(f))
      && ("nullable" in g ==> g["nullable"] == if ListsNull(f) then Bool(true) else f["nullable"])
  {
    hide FirstName, Primary;
    if "type" in f && f["type"].Arr? {
      PrimaryIsFirst(f["type"].items);
      NoNames(f["type"].items);
    }
  }

  /** What one combinator becomes, before its branches are rewritten. */
  function Branches(f: Fields, key: string): Json
    requires key in f
  {
    if f[key].Arr? then Arr(Retain(f[key].items)) else f[key]
  }

  lemma RewriteKeys(f: Fields)
    ensures var g := Rewrite(f);
      && (forall k :: k != "nullable" ==> (k in g <==> k in f))
      && (forall k :: k in f && k !in {"oneOf", "anyOf", "type", "nullable"} ==> g[k] == f[k])
      && ("oneOf" in f ==> g["oneOf"] == Branches(f, "oneOf"))
      && ("anyOf" in f ==> g["anyOf"] == Branches(f, "anyOf"))
      && ("type" in f ==>
            if f["type"].Arr? && exists e :: e in f["type"].items && e.Str?
            then g["type"].Str? && FirstName(f["type"].items, g["type"].s)
            else g["type"] == f["type"])
      && ("nullable" in g <==> "nullable" in f || ListsNull(f) || DropsNull(f, "oneOf") || DropsNull(f, "anyOf"))
      && ("nullable" in g ==> g["nullable"] == if "nullable" in f && !ListsNull(f) then f["nullable"] else Bool(true))
  {
    hide Collapse, Retype, DropsNull, ListsNull, FirstName, Retain;
    var c1 := Collapse(f, "oneOf");
    var c2 := Collapse(c1, "anyOf");
    CollapseKeys(f, "oneOf");
    CollapseKeys(c1, "anyOf");
    RetypeKeys(c2);
    SameMarks(f, c1, c2);
  }

  lemma BranchesRewritten(f: Fields, key: string)
    requires key in f
    ensures if f[key].Arr? then NormNode(Branches(f, key)).Arr? && exists at :: NullsOut(f[key].items, NormNode(Branches(f, key)).items, at)
            else NormNode(Branches(f, key)) == NormNode(f[key])
  {
    if f[key].Arr? {
      var at := RetainedAt(f[key].items);
      assert NullsOut(f[key].items, NormItems(Retain(f[key].items)), at);
    }
  }

  /** The rewriting of an object, key by key. */
  lemma NodeKeys(f: Fields)
    ensures NormNode(Obj(f)).Obj? && NodeRewritten(f, NormNode(Obj(f)).fields)
  {
    hide Rewrite, DropsNull, ListsNull, NullsOut, FirstName, NormNode, Branches;
    RewriteKeys(f);
    RewriteCommutes(f);
    Literals();
    if "oneOf" in f {
      BranchesRewritten(f, "oneOf");
    }
    if "anyOf" in f {
      BranchesRewritten(f, "anyOf");
    }
  }

  lemma Literals()
    ensures NormNode(Bool(true)) == Bool(true)
    ensures forall s :: NormNode(Str(s)) == Str(s)
  {
  }

  lemma SameMarks(f: Fields, c1: Fields, c2: Fields)
    requires ("anyOf" in f <==> "anyOf" in c1) && ("anyOf" in f ==> f["anyOf"] == c1["anyOf"])
    requires ("type" in f <==> "type" in c2) && ("type" in f ==> f["type"] == c2["type"])
    ensures DropsNull(f, "anyOf") <==> DropsNull(c1, "anyOf")
    ensures ListsNull(f) <==> ListsNull(c2)
  {
  }

  // ----------------------------------------------------------- the whole document

  /**
   The document: everything rewritten as a schema node; the version of 3.1 replaced;
   paths, operations and responses gone where they have to.
   */
  ghost predicate DocumentNormalized(doc: Json, out: Json) {
    var n := NormNode(doc);
    if n.Obj? then
      && out.Obj? && (forall k :: k in out.fields <==> k in n.fields)
      && (forall k :: k in n.fields && k !in {"openapi", "paths"} ==> out.fields[k] == n.fields[k])
      && ("openapi" in n.fields ==> out.fields["openapi"] == if IsThreeOne(n.fields["openapi"]) then Str("3.0.3") else n.fields["openapi"])
      && ("paths" in n.fields ==> PathsPruned(n.fields["paths"], out.fields["paths"]))
    else out == n
  }

  predicate IsThreeOne(version: Json) {
    version.Str? && |version.s| >= 4 && version.s[..4] == "3.1."
  }

  lemma CollapseOther(f: Fields, combinator: string, key: string, v: Json)
    requires key != combinator && key != "nullable"
    ensures Collapse(f[key := v], combinator) == Collapse(f, combinator)[key := v]
  {
  }

  lemma RetypeOther(f: Fields, key: string, v: Json)
    requires key != "type" && key != "nullable"
    ensures Retype(f[key := v]) == Retype(f)[key := v]
  {
  }

  /** The version pass touches its key only, before the schema pass or after it. */
  lemma VersionThenNode(doc: Json)
    requires doc.Obj? && Version(doc) != doc
    ensures "openapi" in NormNode(doc).fields
    ensures NormNode(Version(doc)) == Obj(NormNode(doc).fields["openapi" := Str("3.0.3")])
  {
    hide Collapse, Retype;
    var f := NormFields(doc.fields);
    var v := Str("3.0.3");
    CollapseOther(f, "oneOf", "openapi", v);
    CollapseOther(Collapse(f, "oneOf"), "anyOf", "openapi", v);
    RetypeOther(Collapse(Collapse(f, "oneOf"), "anyOf"), "openapi", v);
    NormFieldsUpdate(doc.fields, "openapi", v);
    NormGet(doc.fields, "openapi");
    assert NormNode(doc) == Obj(Rewrite(f));
    assert NormNode(Version(doc)) == Obj(Rewrite(NormFields(Version(doc).fields)));
  }

  lemma VersionUntouchedIff(doc: Json)
    requires doc.Obj?
    ensures Version(doc) != doc <==> "openapi" in NormNode(doc).fields && IsThreeOne(NormNode(doc).fields["openapi"])
  {
    assert "3.0.3"[2] != "3.1."[2];
    NormGet(doc.fields, "openapi");
    hide Rewrite;
  }

  /** The output, key by key. */
  lemma DocumentKeys(doc: Json)
    ensures DocumentNormalized(doc, Normalized(doc))
  {
    hide NormNode, DropSse, DropBare, PathsPruned, Version;
    DropKeys(NormNode(Version(doc)));
    NodeKinds(doc);
    if doc.Obj? {
      VersionUntouchedIff(doc);
      if Version(doc) != doc {
        VersionThenNode(doc);
      }
    }
  }

  lemma NodeKinds(doc: Json)
    ensures NormNode(doc).Obj? <==> doc.Obj?
    ensures !doc.Obj? ==> Version(doc) == doc
  {
  }
}
