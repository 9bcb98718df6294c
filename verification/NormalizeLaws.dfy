/** Normalising twice is normalising once, on every JSON value. */
module NormalizeLaws {
  import opened JsonModel
  import opened Normalize

  // ------------------------------------------------ the schema normal form

  /** No combinator lists a null branch and no type is a list of names. */
  predicate NodeSettled(f: Fields) {
    && NoNullBranch(f, "oneOf")
    && NoNullBranch(f, "anyOf")
    && ("type" in f && f["type"].Arr? ==> forall e :: e in f["type"].items ==> !e.Str?)
  }

  predicate NoNullBranch(f: Fields, key: string) {
    key in f && f[key].Arr? ==> forall e :: e in f[key].items ==> !IsNullBranch(e)
  }

  /** The normal form, at every depth. */
  ghost predicate Settled(node: Json) {
    match node
    case Obj(f) => NodeSettled(f) && forall k :: k in f ==> Settled(f[k])
    case Arr(items) => forall i :: 0 <= i < |items| ==> Settled(items[i])
    case _ => true
  }

  lemma {:induction false} RetainUnchanged(options: seq<Json>)
    requires forall e :: e in options ==> !IsNullBranch(e)
    ensures Retain(options) == options
  {
    if options != [] {
      RetainUnchanged(options[1..]);
    }
  }

  lemma {:induction false} NoNames(entries: seq<Json>)
    ensures Str("null") !in entries && NonNullNames(entries) == [] <==> forall e :: e in entries ==> !e.Str?
  {
    if entries != [] {
      NoNames(entries[1..]);
      assert forall e :: e in entries <==> e == entries[0] || e in entries[1..];
    }
  }

  /** Collapsing a combinator touches that combinator and `nullable` only. */
  lemma CollapseElsewhere(h: Fields, combinator: string, key: string)
    requires key != combinator && key != "nullable"
    ensures key in Collapse(h, combinator) <==> key in h
    ensures key in h ==> Collapse(h, combinator)[key] == h[key]
  {
  }

  /** An object already in node normal form is rewritten to itself. */
  lemma RewriteFixed(f: Fields)
    requires NodeSettled(f)
    ensures Rewrite(f) == f
  {
    if "oneOf" in f && f["oneOf"].Arr? {
      RetainUnchanged(f["oneOf"].items);
    }
    assert Collapse(f, "oneOf") == f;
    if "anyOf" in f && f["anyOf"].Arr? {
      RetainUnchanged(f["anyOf"].items);
    }
    if "type" in f && f["type"].Arr? {
      NoNames(f["type"].items);
    }
  }

  /** Rewriting an object whose values are settled settles the object. */
  lemma RewriteSettles(h: Fields)
    requires forall k :: k in h ==> Settled(h[k])
    ensures Settled(Obj(Rewrite(h)))
  {
    var c1 := Collapse(h, "oneOf");
    CollapseSettles(h, "oneOf");
    var c2 := Collapse(c1, "anyOf");
    CollapseSettles(c1, "anyOf");
    CollapseElsewhere(c1, "anyOf", "oneOf");
    assert NoNullBranch(c2, "oneOf");
    if "type" in c2 && c2["type"].Arr? {
      NoNames(c2["type"].items);
    }
    hide Collapse;
    assert NodeSettled(Retype(c2));
  }

  lemma CollapseSettles(h: Fields, key: string)
    requires key != "nullable"
    requires forall k :: k in h ==> Settled(h[k])
    ensures forall k :: k in Collapse(h, key) ==> Settled(Collapse(h, key)[k])
    ensures NoNullBranch(Collapse(h, key), key)
  {
    if key in h && h[key].Arr? {
      var kept := Retain(h[key].items);
      assert forall i :: 0 <= i < |kept| ==> kept[i] in h[key].items;
      assert Settled(Arr(kept));
    }
  }

  lemma {:induction false} NormSettles(node: Json)
    ensures Settled(NormNode(node))
  {
    match node
    case Obj(f) =>
      var h := map k | k in f :: NormNode(f[k]);
      forall k | k in h ensures Settled(h[k]) {
        NormSettles(f[k]);
      }
      RewriteSettles(h);
    case Arr(items) =>
      forall i | 0 <= i < |items| ensures Settled(NormItems(items)[i]) {
        NormSettles(items[i]);
      }
    case _ =>
  }

  lemma {:induction false} SettledFixed(node: Json)
    requires Settled(node)
    ensures NormNode(node) == node
  {
    match node
    case Obj(f) =>
      var h := map k | k in f :: NormNode(f[k]);
      forall k | k in f ensures h[k] == f[k] {
        SettledFixed(f[k]);
      }
      assert h == f;
      RewriteFixed(f);
    case Arr(items) =>
      forall i | 0 <= i < |items| ensures NormNode(items[i]) == items[i] {
        SettledFixed(items[i]);
      }
      assert NormItems(items) == items;
    case _ =>
  }

  /** The normal form is exactly the set of nodes the schema pass leaves alone. */
  lemma SettledIffFixed(node: Json)
    ensures Settled(node) <==> NormNode(node) == node
  {
    if Settled(node) {
      SettledFixed(node);
    }
    NormSettles(node);
  }

  // ------------------------------------- the drop passes keep the normal form

  /** Dropping keys and trimming nested objects cannot un-settle an object. */
  lemma ShrinkSettled(f: Fields, g: Fields)
    requires Settled(Obj(f))
    requires forall k :: k in g ==> k in f && Settled(g[k]) && (g[k] == f[k] || g[k].Obj?)
    ensures Settled(Obj(g))
  {
  }

  lemma DropSseSettled(doc: Json)
    requires Settled(doc)
    ensures Settled(DropSse(doc))
  {
    if HasObj(doc, "paths") {
      var paths := doc.fields["paths"].fields;
      forall p | p in paths ensures Settled(KeepOperations(paths[p])) {
        if paths[p].Obj? {
          ShrinkSettled(paths[p].fields, KeepOperations(paths[p]).fields);
        }
      }
      assert Settled(doc.fields["paths"]);
      ShrinkSettled(paths, KeepPaths(paths));
      ShrinkSettled(doc.fields, DropSse(doc).fields);
    }
  }

  lemma TrimItemSettled(item: Json)
    requires Settled(item)
    ensures Settled(TrimItem(item))
  {
    if item.Obj? {
      forall m | m in item.fields ensures Settled(TrimOperation(item.fields[m])) {
        var op := item.fields[m];
        if HasObj(op, "responses") {
          var responses := op.fields["responses"];
          assert Settled(responses);
          ShrinkSettled(responses.fields, KeepResponses(responses.fields));
          ShrinkSettled(op.fields, TrimOperation(op).fields);
        }
      }
      ShrinkSettled(item.fields, TrimItem(item).fields);
    }
  }

  lemma DropBareSettled(doc: Json)
    requires Settled(doc)
    ensures Settled(DropBare(doc))
  {
    if HasObj(doc, "paths") {
      var paths := doc.fields["paths"].fields;
      assert Settled(doc.fields["paths"]);
      forall p | p in paths ensures Settled(TrimItem(paths[p])) {
        TrimItemSettled(paths[p]);
      }
      ShrinkSettled(paths, DropBare(doc).fields["paths"].fields);
      ShrinkSettled(doc.fields, DropBare(doc).fields);
    }
  }

  // ------------------------------------------- neither pass re-enables another

  /** No path item is empty and none offers a streaming operation. */
  predicate Quiet(doc: Json) {
    HasObj(doc, "paths") ==>
      forall p :: p in doc.fields["paths"].fields ==> QuietItem(doc.fields["paths"].fields[p])
  }

  predicate QuietItem(item: Json) {
    item.Obj? ==> item.fields != map[] && forall m :: m in item.fields && IsMethod(m) ==> !IsSse(item.fields[m])
  }

  lemma QuietIffUntouched(doc: Json)
    ensures Quiet(doc) <==> DropSse(doc) == doc
    ensures Quiet(DropSse(doc))
  {
    if HasObj(doc, "paths") {
      var paths := doc.fields["paths"].fields;
      forall p | p in paths
        ensures QuietItem(paths[p]) <==> KeepOperations(paths[p]) == paths[p] && paths[p] != Obj(map[])
        ensures KeepOperations(paths[p]) != Obj(map[]) ==> QuietItem(KeepOperations(paths[p]))
      {
        QuietItemIffKept(paths[p]);
      }
      if Quiet(doc) {
        assert KeepPaths(paths) == paths;
        assert DropSse(doc).fields == doc.fields;
      }
      if DropSse(doc) == doc {
        assert KeepPaths(paths) == paths;
      }
    }
  }

  lemma QuietItemIffKept(item: Json)
    ensures QuietItem(item) <==> KeepOperations(item) == item && item != Obj(map[])
    ensures KeepOperations(item) != Obj(map[]) ==> QuietItem(KeepOperations(item))
  {
    if item.Obj? {
      if QuietItem(item) {
        assert KeepOperations(item).fields == item.fields;
      }
      if KeepOperations(item) == item {
        forall m | m in item.fields && IsMethod(m) ensures !IsSse(item.fields[m]) {
          assert m in KeepOperations(item).fields;
        }
      }
    }
  }

  /** Trimming responses neither adds nor hides a streaming operation. */
  lemma TrimKeepsSse(op: Json)
    ensures IsSse(TrimOperation(op)) <==> IsSse(op)
  {
    if HasObj(op, "responses") {
      var before := op.fields["responses"].fields;
      var after := TrimOperation(op).fields["responses"].fields;
      if IsSse(op) {
        var k :| k in before && OffersStream(before[k]);
        assert k in after && OffersStream(after[k]);
      }
      if IsSse(TrimOperation(op)) {
        var k :| k in after && OffersStream(after[k]);
        assert k in before && OffersStream(before[k]);
      }
    }
  }

  lemma DropBareQuiet(doc: Json)
    requires Quiet(doc)
    ensures Quiet(DropBare(doc))
  {
    if HasObj(doc, "paths") {
      var paths := doc.fields["paths"].fields;
      forall p | p in paths ensures QuietItem(TrimItem(paths[p])) {
        var item := paths[p];
        if item.Obj? {
          assert QuietItem(item);
          var some :| some in item.fields;
          assert some in TrimItem(item).fields;
          forall m | m in item.fields && IsMethod(m) ensures !IsSse(TrimItem(item).fields[m]) {
            TrimKeepsSse(item.fields[m]);
          }
        }
      }
    }
  }

  lemma KeepResponsesIdempotent(responses: Fields)
    ensures KeepResponses(KeepResponses(responses)) == KeepResponses(responses)
  {
    var kept := KeepResponses(responses);
    if HasBody(responses) {
      var k :| k in responses && HasContent(responses[k]);
      assert k in kept && HasContent(kept[k]);
      assert forall s :: s in kept ==> HasContent(kept[s]);
      assert KeepResponses(kept) == kept;
    }
  }

  lemma TrimItemIdempotent(item: Json)
    ensures TrimItem(TrimItem(item)) == TrimItem(item)
  {
    if item.Obj? {
      forall m | m in item.fields ensures TrimOperation(TrimOperation(item.fields[m])) == TrimOperation(item.fields[m]) {
        var op := item.fields[m];
        if HasObj(op, "responses") {
          KeepResponsesIdempotent(op.fields["responses"].fields);
          assert TrimOperation(TrimOperation(op)).fields == TrimOperation(op).fields;
        }
      }
      assert TrimItem(TrimItem(item)).fields == TrimItem(item).fields;
    }
  }

  lemma DropBareIdempotent(doc: Json)
    ensures DropBare(DropBare(doc)) == DropBare(doc)
  {
    if HasObj(doc, "paths") {
      var paths := doc.fields["paths"].fields;
      forall p | p in paths ensures TrimItem(TrimItem(paths[p])) == TrimItem(paths[p]) {
        TrimItemIdempotent(paths[p]);
      }
      var once := DropBare(doc);
      assert DropBare(once).fields["paths"].fields == once.fields["paths"].fields;
      assert DropBare(once).fields == once.fields;
    }
  }

  // ------------------------- rewriting first or descending first is the same

  lemma NullBranchStable(branch: Json)
    ensures IsNullBranch(NormNode(branch)) <==> IsNullBranch(branch)
  {
    if branch.Obj? {
      var h := map k | k in branch.fields :: NormNode(branch.fields[k]);
      CollapseElsewhere(h, "oneOf", "type");
      CollapseElsewhere(Collapse(h, "oneOf"), "anyOf", "type");
      hide Collapse;
      assert NormNode(branch) == Obj(Retype(Collapse(Collapse(h, "oneOf"), "anyOf")));
    }
  }

  lemma {:induction false} RetainCommutes(options: seq<Json>)
    ensures NormItems(Retain(options)) == Retain(NormItems(options))
  {
    if options != [] {
      RetainCommutes(options[1..]);
      NullBranchStable(options[0]);
      assert NormItems(options)[1..] == NormItems(options[1..]);
      if !IsNullBranch(options[0]) {
        assert Retain(options)[1..] == Retain(options[1..]);
      }
    }
  }

  lemma NormFieldsUpdate(f: Fields, key: string, v: Json)
    ensures NormFields(f[key := v]) == NormFields(f)[key := NormNode(v)]
  {
  }

  lemma CollapseCommutes(f: Fields, key: string)
    requires key == "oneOf" || key == "anyOf"
    ensures NormFields(Collapse(f, key)) == Collapse(NormFields(f), key)
  {
    if key in f && f[key].Arr? {
      var options := f[key].items;
      var kept := Retain(options);
      RetainCommutes(options);
      assert NormFields(f)[key] == Arr(NormItems(options));
      assert Retain(NormItems(options)) == NormItems(options) <==> kept == options by {
        assert |Retain(NormItems(options))| == |kept|;
      }
      NormFieldsUpdate(f, key, Arr(kept));
      NormFieldsUpdate(f[key := Arr(kept)], "nullable", Bool(true));
    }
  }

  lemma {:induction false} NamesStable(entries: seq<Json>)
    ensures NonNullNames(NormItems(entries)) == NonNullNames(entries)
    ensures Str("null") in NormItems(entries) <==> Str("null") in entries
  {
    if entries != [] {
      NamesStable(entries[1..]);
      assert NormItems(entries)[1..] == NormItems(entries[1..]);
      assert entries == [entries[0]] + entries[1..];
    }
  }

  lemma RetypeCommutes(f: Fields)
    ensures NormFields(Retype(f)) == Retype(NormFields(f))
  {
    if "type" in f && f["type"].Arr? {
      var entries := f["type"].items;
      NamesStable(entries);
      assert NormFields(f)["type"] == Arr(NormItems(entries));
      hide NonNullNames;
      var primary := Str(Primary(entries));
      NormFieldsUpdate(f, "type", primary);
      NormFieldsUpdate(f["type" := primary], "nullable", Bool(true));
    }
  }

  /** Rewriting an object and then its values equals rewriting its values and then the object. */
  lemma RewriteCommutes(f: Fields)
    ensures NormFields(Rewrite(f)) == Rewrite(NormFields(f))
    ensures NormNode(Obj(f)) == Obj(NormFields(Rewrite(f)))
  {
    CollapseCommutes(f, "oneOf");
    CollapseCommutes(Collapse(f, "oneOf"), "anyOf");
    RetypeCommutes(Collapse(Collapse(f, "oneOf"), "anyOf"));
  }

  // ------------------------------------------------------------ the pipeline

  /** Nothing after the version pass brings a 3.1 version string back. */
  predicate Versioned(doc: Json) {
    doc.Obj? && "openapi" in doc.fields && doc.fields["openapi"].Str? ==> !("3.1." <= doc.fields["openapi"].s)
  }

  /** The keys the schema pass does not write. */
  predicate Plain(key: string) {
    key != "oneOf" && key != "anyOf" && key != "type" && key != "nullable"
  }

  lemma RewriteElsewhere(h: Fields, key: string)
    requires Plain(key)
    ensures key in Rewrite(h) <==> key in h
    ensures key in h ==> Rewrite(h)[key] == h[key]
  {
    CollapseElsewhere(h, "oneOf", key);
    CollapseElsewhere(Collapse(h, "oneOf"), "anyOf", key);
    hide Collapse;
  }

  /** A key the schema pass does not write is found below the rewritten object. */
  lemma NormGet(f: Fields, key: string)
    requires Plain(key)
    ensures key in NormNode(Obj(f)).fields <==> key in f
    ensures key in f ==> NormNode(Obj(f)).fields[key] == NormNode(f[key])
  {
    var h := map k | k in f :: NormNode(f[k]);
    RewriteElsewhere(h, key);
    assert NormNode(Obj(f)) == Obj(Rewrite(h));
  }

  lemma NormKeepsVersion(doc: Json)
    requires Versioned(doc)
    ensures Versioned(NormNode(doc))
  {
    if doc.Obj? {
      var h := map k | k in doc.fields :: NormNode(doc.fields[k]);
      RewriteElsewhere(h, "openapi");
      assert NormNode(doc) == Obj(Rewrite(h));
    }
  }

  /** The output is in every pass's normal form. */
  lemma NormalizedForm(doc: Json)
    ensures Versioned(Normalized(doc))
    ensures Settled(Normalized(doc))
    ensures Quiet(Normalized(doc))
    ensures DropBare(Normalized(doc)) == Normalized(doc)
  {
    var v := Version(doc);
    assert "3.0.3"[2] != "3.1."[2];
    assert Versioned(v);
    NormKeepsVersion(v);
    var n := NormNode(v);
    NormSettles(v);
    DropSseSettled(n);
    QuietIffUntouched(n);
    DropBareSettled(DropSse(n));
    DropBareQuiet(DropSse(n));
    DropBareIdempotent(DropSse(n));
  }

  /** Idempotence of the whole pipeline. */
  lemma NormalizeIdempotent(doc: Json)
    ensures Normalized(Normalized(doc)) == Normalized(doc)
  {
    var out := Normalized(doc);
    NormalizedForm(doc);
    SettledFixed(out);
    QuietIffUntouched(out);
  }
}
