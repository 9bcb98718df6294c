/**
 The rewriting as the program performs it: a document whose value each pass
 replaces in place, with the loops that collect keys before removing them.
 Every method is proved to compute the function of `Normalize` it stands for.
 */
module DocumentPasses {
  import opened JsonModel
  import opened Normalize
  import opened NormalizeLaws
  import opened NormalizeKeys

  // ---------------------------------------------------- termination measures

  /** `node` is `bound`, or was put in its place by the rewriting of an object. */
  ghost predicate Fits(node: Json, bound: Json) {
    || node == bound
    || (node.Arr? && forall e :: e in node.items ==> e < bound)
    || node.Str?
    || node.Bool?
  }

  lemma RewriteFits(f: Fields, key: string) returns (bound: Json)
    requires key in Rewrite(f)
    ensures bound < Obj(f)
    ensures Fits(Rewrite(f)[key], bound)
  {
    if key in f {
      bound := f[key];
    } else if "oneOf" in f {
      bound := f["oneOf"];
    } else if "anyOf" in f {
      bound := f["anyOf"];
    } else {
      bound := f["type"];
    }
    var c1 := Collapse(f, "oneOf");
    var c2 := Collapse(c1, "anyOf");
    assert key in c2 ==> Fits(c2[key], bound);
  }

  class Document {
    var value: Json

    constructor (doc: Json)
      ensures value == doc
    {
      value := doc;
    }

    method NormalizeDocument()
      modifies this
      ensures value == Normalized(old(value))
      ensures DocumentNormalized(old(value), value)
    {
      DocumentKeys(value);
      NormalizeVersion();
      value := NormalizeSchemaNode(value, value);
      DropSseOperations();
      DropContentlessResponses();
    }

    method NormalizeVersion()
      modifies this
      ensures value == Version(old(value))
      ensures
        if old(value).Obj? && "openapi" in old(value).fields && IsThreeOne(old(value).fields["openapi"])
        then value == Obj(old(value).fields["openapi" := Str("3.0.3")])
        else value == old(value)
    {
      if value.Obj? && "openapi" in value.fields {
        var openapi := value.fields["openapi"];
        if openapi.Str? && "3.1." <= openapi.s {
          value := Obj(value.fields["openapi" := Str("3.0.3")]);
        }
      }
    }

    static method CollapseNullBranches(f: Fields, key: string) returns (map': Fields)
      ensures map' == Collapse(f, key)
    {
      map' := f;
      if key !in map' || !map'[key].Arr? {
        return;
      }
      var options := map'[key].items;
      var before := |options|;
      var kept: seq<Json> := [];
      var i := |options|;
      while i > 0
        invariant 0 <= i <= |options|
        invariant kept == Retain(options[i..])
      {
        i := i - 1;
        assert options[i..] == [options[i]] + options[i + 1..];
        if !IsNullBranch(options[i]) {
          kept := [options[i]] + kept;
        }
      }
      map' := map'[key := Arr(kept)];
      if |kept| != before && kept != [] && "nullable" !in map' {
        map' := map'["nullable" := Bool(true)];
      }
    }

    /** The `type` arm: gather the listed names, then insert `type` and `nullable`. */
    static method CollapseType(f: Fields) returns (map': Fields)
      ensures map' == Retype(f)
    {
      map' := f;
      if "type" !in f || !f["type"].Arr? {
        return;
      }
      var types := f["type"].items;
      var nonNull: seq<string> := [];
      var nullable := false;
      for i := 0 to |types|
        invariant NonNullNames(types) == nonNull + NonNullNames(types[i..])
        invariant nullable <==> Str("null") in types[..i]
      {
        assert types[..i + 1] == types[..i] + [types[i]];
        assert types[i..][1..] == types[i + 1..];
        if types[i].Str? {
          if types[i].s == "null" {
            nullable := true;
          } else {
            nonNull := nonNull + [types[i].s];
          }
        }
      }
      assert types[..|types|] == types;
      if nullable || nonNull != [] {
        var primary := if nonNull != [] then nonNull[0] else "string";
        map' := map'["type" := Str(primary)];
        if nullable {
          map' := map'["nullable" := Bool(true)];
        }
      }
    }

    /** Objects are rewritten before their values, as the program does it. */
    static method NormalizeSchemaNode(node: Json, ghost bound: Json) returns (out: Json)
      requires Fits(node, bound)
      ensures out == NormNode(node)
      ensures node.Obj? ==> out.Obj? && NodeRewritten(node.fields, out.fields)
      decreases bound
    {
      hide NodeRewritten;
      match node
      case Obj(f) =>
        var g := CollapseNullBranches(f, "oneOf");
        g := CollapseNullBranches(g, "anyOf");
        g := CollapseType(g);
        assert g == Rewrite(f);
        var h := g;
        var todo := g.Keys;
        while todo != {}
          invariant todo <= g.Keys == h.Keys
          invariant forall k :: k in todo ==> h[k] == g[k]
          invariant forall k :: k in g.Keys - todo ==> h[k] == NormNode(g[k])
          decreases todo
        {
          var k :| k in todo;
          ghost var smaller := RewriteFits(f, k);
          var v := NormalizeSchemaNode(h[k], smaller);
          h := h[k := v];
          todo := todo - {k};
        }
        assert h == NormFields(g);
        RewriteCommutes(f);
        NodeKeys(f);
        out := Obj(h);
      case Arr(items) =>
        var done: seq<Json> := [];
        for i := 0 to |items|
          invariant |done| == i
          invariant forall k :: 0 <= k < i ==> done[k] == NormNode(items[k])
        {
          assert items[i] in items;
          var v := NormalizeSchemaNode(items[i], items[i]);
          done := done + [v];
        }
        assert done == NormItems(items);
        out := Arr(done);
      case _ =>
        out := node;
    }

    static method OperationIsSse(op: Json) returns (sse: bool)
      ensures sse == IsSse(op)
      ensures sse <==> Streams(op)
    {
      StreamsIsSse(op);
      if !HasObj(op, "responses") {
        return false;
      }
      var responses := op.fields["responses"].fields;
      var todo := responses.Keys;
      while todo != {}
        invariant todo <= responses.Keys
        invariant forall k :: k in responses.Keys - todo ==> !OffersStream(responses[k])
        decreases todo
      {
        var k :| k in todo;
        if OffersStream(responses[k]) {
          return true;
        }
        todo := todo - {k};
      }
      return false;
    }

    /** One path item: collect the streaming methods, then remove them. */
    static method DropItemMethods(obj: Fields) returns (kept: Fields)
      ensures Obj(kept) == KeepOperations(Obj(obj))
    {
      var dropMethods: seq<string> := [];
      for i := 0 to |METHODS|
        invariant forall m :: m in dropMethods <==> m in METHODS[..i] && m in obj && IsSse(obj[m])
      {
        var method' := METHODS[i];
        if method' in obj {
          var sse := OperationIsSse(obj[method']);
          if sse {
            dropMethods := dropMethods + [method'];
          }
        }
      }
      assert METHODS[..|METHODS|] == METHODS;
      kept := obj;
      for i := 0 to |dropMethods|
        invariant kept == map m | m in obj && m !in dropMethods[..i] :: obj[m]
      {
        kept := kept - {dropMethods[i]};
      }
      assert dropMethods[..|dropMethods|] == dropMethods;
    }

    method DropSseOperations()
      modifies this
      ensures value == DropSse(old(value))
      ensures StreamsDropped(old(value), value)
    {
      DropSseKeys(value);
      hide StreamsDropped;
      if !HasObj(value, "paths") {
        return;
      }
      var paths := value.fields["paths"].fields;
      var emptyPaths: set<string> := {};
      var kept := paths;
      var todo := paths.Keys;
      while todo != {}
        invariant value == old(value)
        invariant todo <= paths.Keys == kept.Keys
        invariant forall p :: p in todo ==> kept[p] == paths[p]
        invariant forall p :: p in paths.Keys - todo ==> kept[p] == KeepOperations(paths[p])
        invariant emptyPaths == set p | p in paths.Keys - todo && KeepOperations(paths[p]) == Obj(map[])
        decreases todo
      {
        var p :| p in todo;
        if kept[p].Obj? {
          var obj := DropItemMethods(kept[p].fields);
          kept := kept[p := Obj(obj)];
          if obj == map[] {
            emptyPaths := emptyPaths + {p};
          }
        }
        todo := todo - {p};
      }
      assert kept - emptyPaths == KeepPaths(paths);
      value := Obj(value.fields["paths" := Obj(kept - emptyPaths)]);
    }

    /** The responses of one operation: collect the bare ones, then remove them. */
    static method DropBareResponses(responses: Fields) returns (kept: Fields)
      ensures kept == KeepResponses(responses)
      ensures ResponsesPruned(responses, kept)
    {
      ResponseKeys(responses);
      kept := responses;
      if !HasBody(responses) {
        return;
      }
      var bare: set<string> := {};
      var todo := responses.Keys;
      while todo != {}
        invariant todo <= responses.Keys
        invariant bare == set s | s in responses.Keys - todo && !HasContent(responses[s])
        decreases todo
      {
        var s :| s in todo;
        if !HasContent(responses[s]) {
          bare := bare + {s};
        }
        todo := todo - {s};
      }
      kept := responses - bare;
    }

    static method DropItemBare(obj: Fields) returns (out: Fields)
      ensures Obj(out) == TrimItem(Obj(obj))
    {
      out := obj;
      for i := 0 to |METHODS|
        invariant out.Keys == obj.Keys
        invariant forall m :: m in obj ==>
          out[m] == if m in METHODS[..i] then TrimOperation(obj[m]) else obj[m]
      {
        var m := METHODS[i];
        assert m !in METHODS[..i];
        if m in out && HasObj(out[m], "responses") {
          var op := out[m].fields;
          var responses := DropBareResponses(op["responses"].fields);
          out := out[m := Obj(op["responses" := Obj(responses)])];
        }
      }
      assert METHODS[..|METHODS|] == METHODS;
    }

    method DropContentlessResponses()
      modifies this
      ensures value == DropBare(old(value))
      ensures BareDropped(old(value), value)
    {
      DropBareKeys(value);
      hide BareDropped;
      if !HasObj(value, "paths") {
        return;
      }
      var paths := value.fields["paths"].fields;
      var out := paths;
      var todo := paths.Keys;
      while todo != {}
        invariant value == old(value)
        invariant todo <= paths.Keys == out.Keys
        invariant forall p :: p in todo ==> out[p] == paths[p]
        invariant forall p :: p in paths.Keys - todo ==> out[p] == TrimItem(paths[p])
        decreases todo
      {
        var p :| p in todo;
        if out[p].Obj? {
          var obj := DropItemBare(out[p].fields);
          out := out[p := Obj(obj)];
        }
        todo := todo - {p};
      }
      assert out == map p | p in paths :: TrimItem(paths[p]);
      value := Obj(value.fields["paths" := Obj(out)]);
    }
  }
}
