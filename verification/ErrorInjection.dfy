/**
 The server's global error responses, seen through its serialised document, and
 when normalising the document makes them disappear again.

 The lemmas hold for any table of body-less responses; `GlobalErrors` is the one
 the server injects.
 */
module ErrorInjection {
  import opened JsonModel
  import opened Normalize
  import opened NormalizeLaws
  import opened NormalizeKeys

  function Described(description: string): Json {
    Obj(map["description" := Str(description)])
  }

  function Message(status: string): string {
    if status == "401" then "Unauthorized: missing or invalid API key"
    else if status == "403" then "Forbidden: API key lacks access"
    else if status == "429" then "Too many requests: rate limit exceeded (see Retry-After)"
    else if status == "503" then "Service unavailable: resource limit reached"
    else "Gateway timeout: upstream operation timed out"
  }

  function GlobalErrors(): Fields {
    map s | s in {"401", "403", "429", "503", "504"} :: Described(Message(s))
  }

  /** Each missing status is inserted; a declared one keeps its response. */
  function AddErrors(responses: Fields, extra: Fields): Fields {
    responses + (extra - responses.Keys)
  }

  function InjectOp(op: Json, extra: Fields): Json {
    if HasObj(op, "responses")
    then Obj(op.fields["responses" := Obj(AddErrors(op.fields["responses"].fields, extra))])
    else op
  }

  function Operations(item: Json): Fields {
    if item.Obj? then map m | m in item.fields && IsMethod(m) :: item.fields[m] else map[]
  }

  function InjectOps(ops: Fields, extra: Fields): Fields {
    map m | m in ops :: InjectOp(ops[m], extra)
  }

  function InjectItem(item: Json, extra: Fields): (out: Json)
    ensures out.Obj? <==> item.Obj?
  {
    if item.Obj?
    then Obj(map m | m in item.fields :: if IsMethod(m) then InjectOp(item.fields[m], extra) else item.fields[m])
    else item
  }

  function InjectPaths(paths: Fields, extra: Fields): Fields {
    map p | p in paths :: InjectItem(paths[p], extra)
  }

  function Inject(doc: Json, extra: Fields): Json {
    if HasObj(doc, "paths")
    then Obj(doc.fields["paths" := Obj(InjectPaths(doc.fields["paths"].fields, extra))])
    else doc
  }

  /** What the serialised form of the typed document guarantees below `paths`. */
  predicate Typed(doc: Json) {
    HasObj(doc, "paths") ==>
      forall p :: p in doc.fields["paths"].fields ==> TypedItem(doc.fields["paths"].fields[p])
  }

  predicate TypedItem(item: Json) {
    item.Obj? && forall m :: m in Operations(item) ==> TypedOp(Operations(item)[m])
  }

  predicate TypedOp(op: Json) {
    HasObj(op, "responses") && AllObjects(op.fields["responses"].fields)
  }

  predicate AllObjects(f: Fields) {
    forall k :: k in f ==> f[k].Obj?
  }

  /** The operation documents a body, or declares every status of the table already. */
  predicate CoveredOp(op: Json, extra: Fields) {
    HasObj(op, "responses") ==>
      HasBody(op.fields["responses"].fields) || extra.Keys <= op.fields["responses"].fields.Keys
  }

  predicate CoveredItem(item: Json, extra: Fields) {
    forall m :: m in Operations(item) && !IsSse(Operations(item)[m]) ==> CoveredOp(Operations(item)[m], extra)
  }

  /** Every operation that is not a stream is covered. */
  predicate Covered(doc: Json, extra: Fields) {
    HasObj(doc, "paths") ==>
      forall p :: p in doc.fields["paths"].fields ==> CoveredItem(doc.fields["paths"].fields[p], extra)
  }

  // -------------------------------------------- the injection, key by key

  /** A status that was missing is there, described and without a body. */
  predicate Supplied(before: Fields, after: Fields, status: string, description: string) {
    status !in before ==> status in after && after[status] == Obj(map["description" := Str(description)])
  }

  /** Every declared response stays, and the five global ones are there. */
  ghost predicate ResponsesInjected(before: Fields, after: Fields) {
    && (forall s :: s in after <==> s in before || s in {"401", "403", "429", "503", "504"})
    && (forall s :: s in before ==> after[s] == before[s])
    && Supplied(before, after, "401", "Unauthorized: missing or invalid API key")
    && Supplied(before, after, "403", "Forbidden: API key lacks access")
    && Supplied(before, after, "429", "Too many requests: rate limit exceeded (see Retry-After)")
    && Supplied(before, after, "503", "Service unavailable: resource limit reached")
    && Supplied(before, after, "504", "Gateway timeout: upstream operation timed out")
  }

  ghost predicate OperationInjected(before: Json, after: Json) {
    if before.Obj? && "responses" in before.fields && before.fields["responses"].Obj? then
      && after.Obj? && SameBut(before.fields, after.fields, "responses")
      && after.fields["responses"].Obj?
      && ResponsesInjected(before.fields["responses"].fields, after.fields["responses"].fields)
    else after == before
  }

  ghost predicate ItemInjected(before: Json, after: Json) {
    if before.Obj? then
      && after.Obj? && (forall m :: m in after.fields <==> m in before.fields)
      && (forall m :: m in after.fields && HoldsOperation(m) ==> OperationInjected(before.fields[m], after.fields[m]))
      && (forall m :: m in after.fields && !HoldsOperation(m) ==> after.fields[m] == before.fields[m])
    else after == before
  }

  /** Every operation of the document has the five responses; the rest is untouched. */
  ghost predicate DocumentInjected(before: Json, after: Json) {
    if before.Obj? && "paths" in before.fields && before.fields["paths"].Obj? then
      && after.Obj? && SameBut(before.fields, after.fields, "paths")
      && after.fields["paths"].Obj?
      && (forall p :: p in after.fields["paths"].fields <==> p in before.fields["paths"].fields)
      && forall p :: p in after.fields["paths"].fields ==> ItemInjected(before.fields["paths"].fields[p], after.fields["paths"].fields[p])
    else after == before
  }

  lemma Wordings()
    ensures Message("401") == "Unauthorized: missing or invalid API key"
    ensures Message("403") == "Forbidden: API key lacks access"
    ensures Message("429") == "Too many requests: rate limit exceeded (see Retry-After)"
    ensures Message("503") == "Service unavailable: resource limit reached"
    ensures Message("504") == "Gateway timeout: upstream operation timed out"
  {
    Distinct();
  }

  lemma Distinct()
    ensures "403" != "401" && "429" != "401" && "503" != "401" && "504" != "401"
    ensures "429" != "403" && "503" != "403" && "504" != "403"
    ensures "503" != "429" && "504" != "429" && "504" != "503"
  {
    assert "401"[2] == '1' && "403"[2] == '3' && "429"[2] == '9' && "503"[0] == '5' && "504"[0] == '5' && "504"[2] == '4' && "503"[2] == '3';
  }

  lemma ResponsesGained(before: Fields)
    ensures ResponsesInjected(before, AddErrors(before, GlobalErrors()))
  {
    hide Message, Supplied;
    Wordings();
    GlobalSupplied(before, "401");
    GlobalSupplied(before, "403");
    GlobalSupplied(before, "429");
    GlobalSupplied(before, "503");
    GlobalSupplied(before, "504");
    assert {"401", "403", "429", "503", "504"} == GlobalErrors().Keys;
  }

  lemma GlobalSupplied(before: Fields, status: string)
    requires status in {"401", "403", "429", "503", "504"}
    ensures Supplied(before, AddErrors(before, GlobalErrors()), status, Message(status))
  {
    hide Message;
    assert GlobalErrors()[status] == Described(Message(status));
  }

  lemma OperationGains(op: Json)
    ensures OperationInjected(op, InjectOp(op, GlobalErrors()))
  {
    hide ResponsesInjected, AddErrors, GlobalErrors;
    if HasObj(op, "responses") {
      ResponsesGained(op.fields["responses"].fields);
    }
  }

  lemma ItemGains(item: Json)
    ensures ItemInjected(item, InjectItem(item, GlobalErrors()))
  {
    hide OperationInjected, InjectOp, GlobalErrors, HoldsOperation, IsMethod;
    if item.Obj? {
      forall m | m in item.fields
        ensures HoldsOperation(m) <==> IsMethod(m)
        ensures OperationInjected(item.fields[m], InjectOp(item.fields[m], GlobalErrors()))
      {
        MethodsHold(m);
        OperationGains(item.fields[m]);
      }
    }
  }

  lemma DocumentGains(doc: Json)
    ensures DocumentInjected(doc, Inject(doc, GlobalErrors()))
  {
    hide ItemInjected, InjectItem, GlobalErrors;
    if HasObj(doc, "paths") {
      var paths := doc.fields["paths"].fields;
      forall p | p in paths ensures ItemInjected(paths[p], InjectItem(paths[p], GlobalErrors())) {
        ItemGains(paths[p]);
      }
    }
  }

  // --------------------------------------------------------- the injector

  class OpenApi {
    var value: Json

    constructor (doc: Json)
      ensures value == doc
    {
      value := doc;
    }

    static method InjectResponses(responses: Fields, extra: Fields) returns (out: Fields)
      ensures out == AddErrors(responses, extra)
    {
      out := responses;
      var todo := extra.Keys;
      while todo != {}
        invariant todo <= extra.Keys
        invariant out == responses + (extra - responses.Keys - todo)
        decreases todo
      {
        var status :| status in todo;
        if status !in out {
          out := out[status := extra[status]];
        }
        todo := todo - {status};
      }
    }

    static method InjectOperation(op: Json, extra: Fields) returns (out: Json)
      ensures out == InjectOp(op, extra)
    {
      out := op;
      if HasObj(op, "responses") {
        var responses := InjectResponses(op.fields["responses"].fields, extra);
        out := Obj(op.fields["responses" := Obj(responses)]);
      }
    }

    static method InjectOperations(item: Fields, extra: Fields) returns (out: Fields)
      ensures Obj(out) == InjectItem(Obj(item), extra)
    {
      hide InjectOp;
      out := item;
      for i := 0 to |METHODS|
        invariant out.Keys == item.Keys
        invariant forall m :: m in item ==>
          out[m] == if m in METHODS[..i] then InjectOp(item[m], extra) else item[m]
      {
        var slot := METHODS[i];
        assert slot !in METHODS[..i];
        if slot in out {
          var operation := InjectOperation(out[slot], extra);
          out := out[slot := operation];
        }
      }
      assert METHODS[..|METHODS|] == METHODS;
    }

    method Modify()
      modifies this
      ensures value == Inject(old(value), GlobalErrors())
      ensures DocumentInjected(old(value), value)
    {
      hide DocumentInjected;
      DocumentGains(value);
      if !HasObj(value, "paths") {
        return;
      }
      var extra := GlobalErrors();
      var paths := value.fields["paths"].fields;
      var out := paths;
      var todo := paths.Keys;
      while todo != {}
        invariant value == old(value)
        invariant todo <= paths.Keys == out.Keys
        invariant forall p :: p in todo ==> out[p] == paths[p]
        invariant forall p :: p in paths.Keys - todo ==> out[p] == InjectItem(paths[p], extra)
        decreases todo
      {
        var p :| p in todo;
        if out[p].Obj? {
          var item := InjectOperations(out[p].fields, extra);
          out := out[p := Obj(item)];
        }
        todo := todo - {p};
      }
      assert out == InjectPaths(paths, extra);
      value := Obj(value.fields["paths" := Obj(out)]);
    }
  }

  // ------------------------------------------------------- what it adds

  predicate PlainKeys(f: Fields) {
    forall k :: k in f ==> Plain(k)
  }

  /** A response without a body, in which no pass has anything to rewrite. */
  ghost predicate Bare(response: Json) {
    response.Obj? && !HasContent(response) && Settled(response)
  }

  ghost predicate BodyLess(extra: Fields) {
    PlainKeys(extra) && forall s :: s in extra ==> Bare(extra[s])
  }

  lemma BareFixed(response: Json)
    requires Bare(response)
    ensures response.Obj? && NormNode(response) == response
  {
    SettledFixed(response);
  }

  lemma DescribedBodyLess(description: string)
    ensures Bare(Described(description))
  {
    assert |"description"| == 11 && |"content"| == 7;
    assert |"oneOf"| == 5 && |"anyOf"| == 5 && |"type"| == 4 && |"nullable"| == 8;
  }

  lemma GlobalErrorsBodyLess()
    ensures BodyLess(GlobalErrors())
  {
    hide Message, Bare, Described;
    forall s | s in GlobalErrors() ensures Plain(s) && Bare(GlobalErrors()[s]) {
      assert |s| == 3 && |"oneOf"| == 5 && |"anyOf"| == 5 && |"type"| == 4 && |"nullable"| == 8;
      DescribedBodyLess(Message(s));
    }
  }

  lemma AddedErrors(responses: Fields, extra: Fields)
    requires BodyLess(extra)
    ensures HasBody(AddErrors(responses, extra)) <==> HasBody(responses)
    ensures extra.Keys <= responses.Keys <==> AddErrors(responses, extra) == responses
  {
    var out := AddErrors(responses, extra);
    if HasBody(responses) {
      var k :| k in responses && HasContent(responses[k]);
      assert k in out && HasContent(out[k]);
    }
    assert out.Keys == responses.Keys + extra.Keys;
  }

  lemma InjectKeepsSse(op: Json, extra: Fields)
    requires BodyLess(extra)
    ensures IsSse(InjectOp(op, extra)) <==> IsSse(op)
  {
    if HasObj(op, "responses") {
      var before := op.fields["responses"].fields;
      var after := InjectOp(op, extra).fields["responses"].fields;
      if IsSse(op) {
        var k :| k in before && OffersStream(before[k]);
        assert k in after && OffersStream(after[k]);
      }
      if IsSse(InjectOp(op, extra)) {
        var k :| k in after && OffersStream(after[k]);
        assert HasContent(after[k]);
        assert k in before;
      }
    }
  }

  // -------------------------------------- the schema pass and the injection

  lemma CollapseOverlay(h: Fields, e: Fields, key: string)
    requires key !in e && "nullable" !in e
    ensures Collapse(h + e, key) == Collapse(h, key) + e
  {
    if key in h && h[key].Arr? {
      var kept := Retain(h[key].items);
      assert (h + e)[key := Arr(kept)] == h[key := Arr(kept)] + e;
    }
  }

  lemma RetypeOverlay(h: Fields, e: Fields)
    requires "type" !in e && "nullable" !in e
    ensures Retype(h + e) == Retype(h) + e
  {
    if "type" in h && h["type"].Arr? {
      var primary := Str(Primary(h["type"].items));
      assert (h + e)["type" := primary] == h["type" := primary] + e;
    }
  }

  /** The schema pass leaves keys it does not know where they are. */
  lemma RewriteOverlay(h: Fields, e: Fields)
    requires PlainKeys(e)
    ensures Rewrite(h + e) == Rewrite(h) + e
  {
    CollapseOverlay(h, e, "oneOf");
    CollapseOverlay(Collapse(h, "oneOf"), e, "anyOf");
    RetypeOverlay(Collapse(Collapse(h, "oneOf"), "anyOf"), e);
  }

  lemma NormFieldsUnion(f: Fields, e: Fields)
    ensures NormFields(f + e) == NormFields(f) + NormFields(e)
  {
    hide NormNode;
  }

  lemma NormOverlay(f: Fields, e: Fields)
    requires PlainKeys(e)
    ensures NormNode(Obj(f + e)) == Obj(NormNode(Obj(f)).fields + NormFields(e))
  {
    NormFieldsUnion(f, e);
    RewriteOverlay(NormFields(f), NormFields(e));
  }

  lemma NormMethods(item: Json)
    requires item.Obj?
    ensures Operations(NormNode(item)) == NormFields(Operations(item))
  {
    hide NormNode;
    assert forall m :: IsMethod(m) ==> Plain(m);
    hide IsMethod, Plain;
    forall m | IsMethod(m)
      ensures m in NormNode(item).fields <==> m in item.fields
      ensures m in item.fields ==> NormNode(item).fields[m] == NormNode(item.fields[m])
    {
      NormGet(item.fields, m);
    }
  }

  lemma NormObjects(f: Fields)
    requires AllObjects(f)
    ensures NormNode(Obj(f)) == Obj(NormFields(f))
  {
    assert NodeSettled(NormFields(f));
    RewriteFixed(NormFields(f));
  }

  lemma NormErrors(responses: Fields, extra: Fields)
    requires BodyLess(extra) && AllObjects(responses)
    ensures NormNode(Obj(AddErrors(responses, extra))) == Obj(AddErrors(NormFields(responses), extra))
  {
    hide NormNode, Bare;
    var missing := extra - responses.Keys;
    forall s | s in missing ensures missing[s].Obj? && NormNode(missing[s]) == missing[s] {
      BareFixed(missing[s]);
    }
    NormObjects(responses + missing);
    NormFieldsUnion(responses, missing);
    assert NormFields(missing) == missing;
    assert NormFields(responses).Keys == responses.Keys;
  }

  /** Replacing one value before the schema pass, or its rewriting after it. */
  lemma NormReplace(f: Fields, key: string, v: Json)
    requires Plain(key)
    ensures NormNode(Obj(f[key := v])) == Obj(NormNode(Obj(f)).fields[key := NormNode(v)])
  {
    hide Rewrite, NormNode;
    var e := map[key := v];
    assert f[key := v] == f + e;
    NormOverlay(f, e);
    assert NormFields(e) == map[key := NormNode(v)];
    assert NormNode(Obj(f)).fields + NormFields(e) == NormNode(Obj(f)).fields[key := NormNode(v)];
  }

  lemma NormInjectOp(op: Json, extra: Fields)
    requires BodyLess(extra) && TypedOp(op)
    ensures NormNode(InjectOp(op, extra)) == InjectOp(NormNode(op), extra)
  {
    var responses := op.fields["responses"].fields;
    NormReplace(op.fields, "responses", Obj(AddErrors(responses, extra)));
    NormErrors(responses, extra);
    NormGet(op.fields, "responses");
    NormObjects(responses);
  }

  lemma InjectItemOverlay(item: Json, extra: Fields)
    requires item.Obj?
    ensures InjectItem(item, extra) == Obj(item.fields + InjectOps(Operations(item), extra))
  {
    hide InjectOp, IsMethod;
    assert InjectItem(item, extra).fields == item.fields + InjectOps(Operations(item), extra);
  }

  lemma MethodsPlain(item: Json)
    ensures PlainKeys(Operations(item))
  {
    assert forall m :: IsMethod(m) ==> Plain(m);
  }

  lemma NormInjectItem(item: Json, extra: Fields)
    requires BodyLess(extra) && TypedItem(item)
    ensures NormNode(InjectItem(item, extra)) == InjectItem(NormNode(item), extra)
  {
    hide NormNode, InjectOp;
    var ops := Operations(item);
    MethodsPlain(item);
    NormMethods(item);
    InjectItemOverlay(item, extra);
    InjectItemOverlay(NormNode(item), extra);
    NormOverlay(item.fields, InjectOps(ops, extra));
    forall m | m in ops ensures NormNode(InjectOp(ops[m], extra)) == InjectOp(NormNode(ops[m]), extra) {
      NormInjectOp(ops[m], extra);
    }
    assert NormFields(InjectOps(ops, extra)) == InjectOps(NormFields(ops), extra);
  }

  lemma NormInject(doc: Json, extra: Fields)
    requires BodyLess(extra) && Typed(doc)
    ensures NormNode(Inject(doc, extra)) == Inject(NormNode(doc), extra)
  {
    hide NormNode, InjectItem;
    if doc.Obj? {
      NormGet(doc.fields, "paths");
    }
    if HasObj(doc, "paths") {
      var paths := doc.fields["paths"].fields;
      NormReplace(doc.fields, "paths", Obj(InjectPaths(paths, extra)));
      forall p | p in paths
        ensures paths[p].Obj?
        ensures NormNode(InjectItem(paths[p], extra)) == InjectItem(NormNode(paths[p]), extra)
      {
        assert TypedItem(paths[p]);
        NormInjectItem(paths[p], extra);
      }
      NormObjects(paths);
      NormObjects(InjectPaths(paths, extra));
      assert NormFields(InjectPaths(paths, extra)) == InjectPaths(NormFields(paths), extra);
    }
  }

  // ------------------------------------------ coverage survives the first passes

  lemma RewriteNonEmpty(h: Fields)
    ensures Rewrite(h) == map[] <==> h == map[]
  {
    if h != map[] {
      var k :| k in h;
      assert k in Collapse(h, "oneOf");
      assert k in Collapse(Collapse(h, "oneOf"), "anyOf");
      assert k in Rewrite(h);
    }
  }

  lemma NormResponse(response: Json)
    requires response.Obj?
    ensures HasContent(NormNode(response)) <==> HasContent(response)
    ensures OffersStream(NormNode(response)) <==> OffersStream(response)
  {
    NormGet(response.fields, "content");
    if HasObj(response, "content") {
      var content := response.fields["content"].fields;
      NormGet(content, "text/event-stream");
      var h := map k | k in content :: NormNode(content[k]);
      assert NormNode(Obj(content)) == Obj(Rewrite(h));
      assert h.Keys == content.Keys;
      RewriteNonEmpty(h);
    }
  }

  lemma NormOpShape(op: Json, extra: Fields)
    requires TypedOp(op)
    ensures IsSse(NormNode(op)) <==> IsSse(op)
    ensures CoveredOp(NormNode(op), extra) <==> CoveredOp(op, extra)
  {
    NormGet(op.fields, "responses");
    var before := op.fields["responses"].fields;
    NormObjects(before);
    var after := NormNode(op).fields["responses"].fields;
    assert after == NormFields(before);
    forall k | k in before
      ensures HasContent(after[k]) <==> HasContent(before[k])
      ensures OffersStream(after[k]) <==> OffersStream(before[k])
    {
      NormResponse(before[k]);
    }
    assert after.Keys == before.Keys;
  }

  lemma NormItemCovered(item: Json, extra: Fields)
    requires TypedItem(item)
    ensures CoveredItem(NormNode(item), extra) <==> CoveredItem(item, extra)
  {
    var ops := Operations(item);
    NormMethods(item);
    forall m | m in ops
      ensures IsSse(NormFields(ops)[m]) <==> IsSse(ops[m])
      ensures CoveredOp(NormFields(ops)[m], extra) <==> CoveredOp(ops[m], extra)
    {
      NormOpShape(ops[m], extra);
    }
    assert NormFields(ops).Keys == ops.Keys;
  }

  lemma NormCovered(doc: Json, extra: Fields)
    requires Typed(doc)
    ensures Covered(NormNode(doc), extra) <==> Covered(doc, extra)
  {
    if doc.Obj? {
      NormGet(doc.fields, "paths");
    }
    if HasObj(doc, "paths") {
      var paths := doc.fields["paths"].fields;
      forall p | p in paths
        ensures paths[p].Obj?
        ensures CoveredItem(NormNode(paths[p]), extra) <==> CoveredItem(paths[p], extra)
      {
        assert TypedItem(paths[p]);
        NormItemCovered(paths[p], extra);
      }
      NormObjects(paths);
      assert NormNode(doc).fields["paths"].fields == NormFields(paths);
      assert NormFields(paths).Keys == paths.Keys;
    }
  }

  lemma KeepInjectItem(item: Json, extra: Fields)
    requires BodyLess(extra)
    ensures KeepOperations(InjectItem(item, extra)) == InjectItem(KeepOperations(item), extra)
    ensures KeepOperations(InjectItem(item, extra)) == Obj(map[]) <==> KeepOperations(item) == Obj(map[])
  {
    if item.Obj? {
      var f := item.fields;
      forall m | m in f && IsMethod(m) ensures IsSse(InjectOp(f[m], extra)) <==> IsSse(f[m]) {
        InjectKeepsSse(f[m], extra);
      }
      hide InjectOp, IsSse, IsMethod;
      var a, b := KeepOperations(InjectItem(item, extra)).fields, KeepOperations(item).fields;
      assert a.Keys == b.Keys;
      assert forall m :: m in b ==> a[m] == InjectItem(KeepOperations(item), extra).fields[m];
    }
  }

  lemma KeepCovered(item: Json, extra: Fields)
    ensures CoveredItem(KeepOperations(item), extra) <==> CoveredItem(item, extra)
  {
    if item.Obj? {
      var ops, kept := Operations(item), Operations(KeepOperations(item));
      assert forall m :: m in ops && !IsSse(ops[m]) <==> m in kept;
      assert forall m :: m in kept ==> kept[m] == ops[m];
    }
  }

  lemma KeepInjectPaths(paths: Fields, extra: Fields)
    requires BodyLess(extra)
    ensures KeepPaths(InjectPaths(paths, extra)) == InjectPaths(KeepPaths(paths), extra)
  {
    hide KeepOperations, InjectItem;
    forall p | p in paths
      ensures KeepOperations(InjectItem(paths[p], extra)) == InjectItem(KeepOperations(paths[p]), extra)
      ensures KeepOperations(InjectItem(paths[p], extra)) == Obj(map[]) <==> KeepOperations(paths[p]) == Obj(map[])
    {
      KeepInjectItem(paths[p], extra);
    }
    var a, b := KeepPaths(InjectPaths(paths, extra)), InjectPaths(KeepPaths(paths), extra);
    assert a.Keys == b.Keys;
    assert forall p :: p in a ==> a[p] == b[p];
  }

  lemma DropSseInject(doc: Json, extra: Fields)
    requires BodyLess(extra)
    ensures DropSse(Inject(doc, extra)) == Inject(DropSse(doc), extra)
  {
    if HasObj(doc, "paths") {
      KeepInjectPaths(doc.fields["paths"].fields, extra);
      hide KeepPaths, InjectPaths;
      assert DropSse(Inject(doc, extra)).fields == Inject(DropSse(doc), extra).fields;
    }
  }

  lemma DropSseCovered(doc: Json, extra: Fields)
    ensures Covered(DropSse(doc), extra) <==> Covered(doc, extra)
  {
    if HasObj(doc, "paths") {
      var paths := doc.fields["paths"].fields;
      forall p | p in paths
        ensures CoveredItem(KeepOperations(paths[p]), extra) <==> CoveredItem(paths[p], extra)
        ensures KeepOperations(paths[p]) == Obj(map[]) ==> CoveredItem(paths[p], extra)
      {
        KeepCovered(paths[p], extra);
        assert Operations(Obj(map[])) == map[];
      }
      hide CoveredItem, KeepOperations;
      var kept := KeepPaths(paths);
      assert DropSse(doc).fields["paths"] == Obj(kept);
      if Covered(doc, extra) {
        forall p | p in kept ensures CoveredItem(kept[p], extra) {
          assert CoveredItem(paths[p], extra);
        }
      }
      if Covered(DropSse(doc), extra) {
        forall p | p in paths ensures CoveredItem(paths[p], extra) {
          assert p in kept ==> CoveredItem(kept[p], extra);
        }
      }
    }
  }

  // ---------------------------------------------- the last pass and the injection

  lemma TrimInjectedOp(op: Json, extra: Fields)
    requires BodyLess(extra)
    ensures TrimOperation(InjectOp(op, extra)) == TrimOperation(op) <==> CoveredOp(op, extra)
  {
    if HasObj(op, "responses") {
      var before := op.fields["responses"].fields;
      var after := AddErrors(before, extra);
      AddedErrors(before, extra);
      forall s | s in after && s !in before ensures !HasContent(after[s]) {}
      hide HasContent;
      var a, b := TrimOperation(InjectOp(op, extra)), TrimOperation(op);
      assert a.fields["responses"] == Obj(KeepResponses(after));
      assert b.fields["responses"] == Obj(KeepResponses(before));
      if HasBody(before) {
        assert KeepResponses(after) == KeepResponses(before);
        assert a.fields == b.fields;
      } else if after == before {
        assert InjectOp(op, extra).fields == op.fields;
      }
    }
  }

  lemma TrimInjectedItem(item: Json, extra: Fields)
    requires BodyLess(extra)
    requires QuietItem(item)
    ensures TrimItem(InjectItem(item, extra)) == TrimItem(item) <==> CoveredItem(item, extra)
  {
    if item.Obj? {
      var ops := Operations(item);
      var a, b := TrimItem(InjectItem(item, extra)).fields, TrimItem(item).fields;
      forall m | m in ops ensures a[m] == b[m] <==> CoveredOp(ops[m], extra) {
        TrimInjectedOp(ops[m], extra);
      }
      assert a.Keys == b.Keys == item.fields.Keys;
      assert forall m :: m in item.fields && m !in ops ==> a[m] == b[m];
      assert (forall m :: m in ops ==> a[m] == b[m]) ==> a == b;
    }
  }

  lemma DropBareInject(doc: Json, extra: Fields)
    requires BodyLess(extra)
    requires Quiet(doc)
    ensures DropBare(Inject(doc, extra)) == DropBare(doc) <==> Covered(doc, extra)
  {
    if HasObj(doc, "paths") {
      var paths := doc.fields["paths"].fields;
      var a := DropBare(Inject(doc, extra)).fields["paths"].fields;
      var b := DropBare(doc).fields["paths"].fields;
      forall p | p in paths ensures a[p] == b[p] <==> CoveredItem(paths[p], extra) {
        assert QuietItem(paths[p]);
        TrimInjectedItem(paths[p], extra);
      }
      assert a.Keys == b.Keys == paths.Keys;
      assert (forall p :: p in paths ==> a[p] == b[p]) ==> a == b;
      if a == b {
        assert DropBare(Inject(doc, extra)).fields == DropBare(doc).fields;
      }
    }
  }

  /**
   Normalising cancels the injection exactly when every operation that is not a
   stream documents a body or declares all the injected statuses itself.
   */
  lemma InjectionCancels(doc: Json)
    requires Typed(doc)
    ensures Normalized(Inject(doc, GlobalErrors())) == Normalized(doc) <==> Covered(doc, GlobalErrors())
  {
    GlobalErrorsBodyLess();
    TableCancels(doc, GlobalErrors());
  }

  lemma TableCancels(doc: Json, extra: Fields)
    requires Typed(doc) && BodyLess(extra)
    ensures Normalized(Inject(doc, extra)) == Normalized(doc) <==> Covered(doc, extra)
  {
    var v := Version(doc);
    VersionElsewhere(doc, extra);
    NormInject(v, extra);
    NormCovered(v, extra);
    DropSseInject(NormNode(v), extra);
    DropSseCovered(NormNode(v), extra);
    QuietIffUntouched(NormNode(v));
    DropBareInject(DropSse(NormNode(v)), extra);
  }

  lemma VersionElsewhere(doc: Json, extra: Fields)
    ensures Version(Inject(doc, extra)) == Inject(Version(doc), extra)
    ensures Typed(Version(doc)) <==> Typed(doc)
    ensures Covered(Version(doc), extra) <==> Covered(doc, extra)
  {
    if HasObj(doc, "paths") {
      assert Version(doc).fields["paths"] == doc.fields["paths"];
      assert Version(Inject(doc, extra)).fields == Inject(Version(doc), extra).fields;
    }
  }
}
