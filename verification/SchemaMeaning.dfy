/**
 Which values a schema accepts, before and after the schema pass.

 A schema is read in one of three dialects. `V31` is JSON Schema 2020-12 (type
 arrays, section 6.1.1 of the validation document; `oneOf` and `anyOf`, sections
 10.2.1.3 and 10.2.1.2 of the core). `V303` is OpenAPI 3.0.3, section 4.7.24,
 where `nullable` adds null to the `type` of the same schema object and has no
 effect without one. `V300` is the wording of OpenAPI 3.0.0 to 3.0.2, where
 `nullable` lets a null value through whatever else the object says.

 References are resolved by a given predicate; `Closed` at the end ties the knot.
 */
module SchemaMeaning {
  import opened JsonModel
  import opened Normalize
  import opened NormalizeLaws
  import opened DocumentPasses

  datatype Dialect = V31 | V303 | V300

  type Refs = (string, Json) -> bool

  // ------------------------------------------------------------ the meaning

  predicate KindOk(name: string, v: Json) {
    match v
    case Null => name == "null"
    case Bool(_) => name == "boolean"
    case Num(n) => name == "number" || (name == "integer" && n.Floor as real == n)
    case Str(_) => name == "string"
    case Arr(_) => name == "array"
    case Obj(_) => name == "object"
  }

  predicate Nullable(f: Fields) {
    "nullable" in f && f["nullable"] == Bool(true)
  }

  predicate TypeOk(d: Dialect, f: Fields, v: Json) {
    "type" in f ==>
      match f["type"]
      case Str(name) => KindOk(name, v) || (d == V303 && Nullable(f) && v.Null?)
      case Arr(names) => exists e :: e in names && e.Str? && KindOk(e.s, v)
      case _ => true
  }

  predicate EnumOk(f: Fields, v: Json) {
    "enum" in f && f["enum"].Arr? ==> v in f["enum"].items
  }

  predicate RequiredOk(f: Fields, v: Json) {
    "required" in f && f["required"].Arr? && v.Obj? ==>
      forall e :: e in f["required"].items && e.Str? ==> e.s in v.fields
  }

  ghost predicate Accepts(d: Dialect, schema: Json, v: Json, refs: Refs)
    decreases schema, 2
  {
    match schema
    case Bool(b) => b
    case Obj(f) =>
      if "$ref" in f && f["$ref"].Str? then
        refs(f["$ref"].s, v) && (d == V31 ==> Asserts(d, schema, v, refs))
      else
        (d == V300 && Nullable(f) && v.Null?) || Asserts(d, schema, v, refs)
    case _ => true
  }

  ghost predicate Asserts(d: Dialect, schema: Json, v: Json, refs: Refs)
    requires schema.Obj?
    decreases schema, 1
  {
    && TypeOk(d, schema.fields, v) && EnumOk(schema.fields, v) && RequiredOk(schema.fields, v)
    && Combines(d, schema, v, refs)
    && Contains(d, schema, v, refs)
  }

  ghost predicate Combines(d: Dialect, schema: Json, v: Json, refs: Refs)
    requires schema.Obj?
    decreases schema, 0
  {
    var f := schema.fields;
    && ("oneOf" in f && f["oneOf"].Arr? ==> Count(d, f["oneOf"].items, v, refs) == 1)
    && ("anyOf" in f && f["anyOf"].Arr? ==> Count(d, f["anyOf"].items, v, refs) > 0)
    && ("allOf" in f && f["allOf"].Arr? ==> Count(d, f["allOf"].items, v, refs) == |f["allOf"].items|)
    && ("not" in f ==> !Accepts(d, f["not"], v, refs))
  }

  ghost predicate Contains(d: Dialect, schema: Json, v: Json, refs: Refs)
    requires schema.Obj?
    decreases schema, 0
  {
    var f := schema.fields;
    && ("properties" in f && f["properties"].Obj? && v.Obj? ==>
          forall k :: k in f["properties"].fields && k in v.fields ==> Accepts(d, f["properties"].fields[k], v.fields[k], refs))
    && ("additionalProperties" in f && v.Obj? ==>
          forall k :: k in v.fields && !Declares(f, k) ==> Accepts(d, f["additionalProperties"], v.fields[k], refs))
    && ("items" in f && v.Arr? ==>
          forall i :: 0 <= i < |v.items| ==> Accepts(d, f["items"], v.items[i], refs))
  }

  predicate Declares(f: Fields, key: string) {
    "properties" in f && f["properties"].Obj? && key in f["properties"].fields
  }

  /** How many branches accept the value. */
  ghost function Count(d: Dialect, branches: seq<Json>, v: Json, refs: Refs): (n: nat)
    ensures n <= |branches|
    decreases branches, 0
  {
    if branches == [] then 0
    else (if Accepts(d, branches[0], v, refs) then 1 else 0) + Count(d, branches[1..], v, refs)
  }

  // ---------------------------------------------------- what the pass assumes

  /** The pass puts `nullable: true` on this object. */
  predicate Marked(f: Fields) {
    || ("type" in f && f["type"].Arr? && Str("null") in f["type"].items)
    || DropsBranch(f, "oneOf")
    || DropsBranch(f, "anyOf")
  }

  predicate DropsBranch(f: Fields, key: string) {
    key in f && f[key].Arr? && exists b :: b in f[key].items && IsNullBranch(b)
  }

  predicate KeepsBranch(f: Fields, key: string) {
    key in f ==> f[key].Arr? && Retain(f[key].items) != []
  }

  predicate Known(name: string) {
    name in {"boolean", "number", "integer", "string", "array", "object"}
  }

  /** The first listed type, the one the pass keeps, takes every value the others take. */
  predicate FirstCovers(names: seq<string>) {
    names != [] && forall t :: t in names && Known(t) ==> t == names[0] || (t == "integer" && names[0] == "number")
  }

  /** No keyword that constrains the value; what only describes, like `description`, may stand beside a reference. */
  predicate NothingBeside(f: Fields) {
    && "type" !in f && "enum" !in f && "required" !in f
    && "oneOf" !in f && "anyOf" !in f && "allOf" !in f && "not" !in f
    && "properties" !in f && "additionalProperties" !in f && "items" !in f
  }

  /** The keywords of one schema object are used the way the pass expects. */
  predicate Shape(f: Fields) {
    && "nullable" !in f
    && ("$ref" in f ==> f["$ref"].Str? && NothingBeside(f))
    && ("type" in f ==> f["type"].Str? || (f["type"].Arr? && FirstCovers(NonNullNames(f["type"].items))))
    && KeepsBranch(f, "oneOf") && KeepsBranch(f, "anyOf")
    && ("allOf" in f ==> f["allOf"].Arr?)
    && ("properties" in f ==> f["properties"].Obj? && forall p :: p in f["properties"].fields.Values ==> p.Obj? || p.Bool?)
    && ("enum" in f ==> NormNode(f["enum"]) == f["enum"])
    && ("required" in f ==> NormNode(f["required"]) == f["required"])
  }

  /** The schemas directly below an object: branches, properties, items. */
  predicate Below(f: Fields, sub: Json) {
    || ("oneOf" in f && f["oneOf"].Arr? && sub in Retain(f["oneOf"].items))
    || ("anyOf" in f && f["anyOf"].Arr? && sub in Retain(f["anyOf"].items))
    || ("allOf" in f && f["allOf"].Arr? && sub in f["allOf"].items)
    || ("properties" in f && f["properties"].Obj? && sub in f["properties"].fields.Values)
    || ("not" in f && sub == f["not"])
    || ("additionalProperties" in f && sub == f["additionalProperties"])
    || ("items" in f && sub == f["items"])
  }

  /**
   What becomes of null under 3.0.3, read off the old object: the mark counts beside
   `type` only, and the combinators judge by the branches they keep.
   */
  ghost predicate NullAfter(f: Fields, refs: Refs) {
    && ("type" in f ==> Marked(f) || f["type"] == Str("null"))
    && EnumOk(f, Null)
    && NullCounts(f, refs)
  }

  ghost predicate NullCounts(f: Fields, refs: Refs) {
    && ("oneOf" in f && f["oneOf"].Arr? ==> Count(V31, Retain(f["oneOf"].items), Null, refs) == 1)
    && ("anyOf" in f && f["anyOf"].Arr? ==> Count(V31, Retain(f["anyOf"].items), Null, refs) > 0)
    && ("allOf" in f && f["allOf"].Arr? ==> Count(V31, f["allOf"].items, Null, refs) == |f["allOf"].items|)
    && ("not" in f ==> !Accepts(V31, f["not"], Null, refs))
  }

  /** What the old object says about null is what the new one will say. */
  ghost predicate NullAgrees(d: Dialect, f: Fields, refs: Refs) {
    if d == V300 then Marked(f) ==> Accepts(V31, Obj(f), Null, refs)
    else "$ref" !in f ==> (Accepts(V31, Obj(f), Null, refs) <==> NullAfter(f, refs))
  }

  lemma BelowSmaller(f: Fields, sub: Json)
    requires Below(f, sub)
    ensures sub < Obj(f)
  {
    if "properties" in f && f["properties"].Obj? && sub in f["properties"].fields.Values {
      var k :| k in f["properties"].fields && f["properties"].fields[k] == sub;
    }
  }

  /** The condition, at every depth. */
  ghost predicate Faithful(d: Dialect, schema: Json, refs: Refs)
    decreases schema
  {
    match schema
    case Bool(_) => true
    case Obj(f) =>
      Shape(f) && NullAgrees(d, f, refs) &&
      forall sub | Below(f, sub) :: (BelowSmaller(f, sub); Faithful(d, sub, refs))
    case _ => false
  }

  // ----------------------------------------------------------- the statement

  ghost predicate SameOn(d: Dialect, schema: Json, v: Json, before: Refs, after: Refs) {
    Accepts(d, NormNode(schema), v, after) <==> Accepts(V31, schema, v, before)
  }

  ghost predicate SameRefs(before: Refs, after: Refs) {
    forall name, v :: after(name, v) == before(name, v)
  }

  /** Every schema below the object keeps its meaning. */
  ghost predicate SameBelow(d: Dialect, f: Fields, before: Refs, after: Refs) {
    forall sub, w :: Below(f, sub) ==> SameOn(d, sub, w, before, after)
  }

  // ------------------------------------------------------- one schema object

  lemma RetainDrops(options: seq<Json>)
    ensures Retain(options) == options <==> forall b :: b in options ==> !IsNullBranch(b)
  {
    if forall b :: b in options ==> !IsNullBranch(b) {
      RetainUnchanged(options);
    }
  }

  lemma CollapseShape(f: Fields, key: string)
    requires key != "nullable"
    requires KeepsBranch(f, key)
    ensures Collapse(f, key).Keys == f.Keys + if DropsBranch(f, key) then {"nullable"} else {}
    ensures key in f ==> Collapse(f, key)[key] == Arr(Retain(f[key].items))
    ensures "nullable" in f ==> Collapse(f, key)["nullable"] == f["nullable"]
    ensures DropsBranch(f, key) && "nullable" !in f ==> Collapse(f, key)["nullable"] == Bool(true)
  {
    if key in f {
      RetainDrops(f[key].items);
    }
  }

  /** Both combinators collapsed: their kept branches, the mark, and `type` untouched. */
  lemma CollapsedShape(f: Fields, c: Fields)
    requires Shape(f)
    requires c == Collapse(Collapse(f, "oneOf"), "anyOf")
    ensures c.Keys == f.Keys + if DropsBranch(f, "oneOf") || DropsBranch(f, "anyOf") then {"nullable"} else {}
    ensures "oneOf" in f ==> c["oneOf"] == Arr(Retain(f["oneOf"].items))
    ensures "anyOf" in f ==> c["anyOf"] == Arr(Retain(f["anyOf"].items))
    ensures "type" in f ==> c["type"] == f["type"]
    ensures "nullable" in c ==> c["nullable"] == Bool(true)
  {
    var c1 := Collapse(f, "oneOf");
    CollapseElsewhere(f, "oneOf", "anyOf");
    CollapseElsewhere(f, "oneOf", "type");
    CollapseElsewhere(c1, "anyOf", "oneOf");
    CollapseElsewhere(c1, "anyOf", "type");
    CollapseShape(f, "oneOf");
    hide Collapse;
    assert DropsBranch(c1, "anyOf") <==> DropsBranch(f, "anyOf");
    CollapseShape(c1, "anyOf");
  }

  lemma RewrittenShape(f: Fields, r: Fields)
    requires Shape(f)
    requires r == Rewrite(f)
    ensures r.Keys == f.Keys + if Marked(f) then {"nullable"} else {}
    ensures "oneOf" in f ==> r["oneOf"] == Arr(Retain(f["oneOf"].items))
    ensures "anyOf" in f ==> r["anyOf"] == Arr(Retain(f["anyOf"].items))
    ensures "type" in f ==> r["type"] == if f["type"].Arr? then Str(NonNullNames(f["type"].items)[0]) else f["type"]
    ensures "nullable" in r ==> r["nullable"] == Bool(true)
  {
    var c := Collapse(Collapse(f, "oneOf"), "anyOf");
    CollapsedShape(f, c);
    assert r == Retype(c);
    hide Collapse, DropsBranch, NonNullNames, Retain, KeepsBranch;
  }

  /** The four keys the pass writes. */
  ghost predicate Written(f: Fields, g: Fields)
    requires Shape(f)
  {
    && ("oneOf" in g <==> "oneOf" in f) && ("oneOf" in f ==> g["oneOf"] == Arr(NormItems(Retain(f["oneOf"].items))))
    && ("anyOf" in g <==> "anyOf" in f) && ("anyOf" in f ==> g["anyOf"] == Arr(NormItems(Retain(f["anyOf"].items))))
    && ("type" in g <==> "type" in f)
    && ("type" in f ==> g["type"] == if f["type"].Arr? then Str(NonNullNames(f["type"].items)[0]) else f["type"])
    && (Nullable(g) <==> Marked(f))
  }

  lemma NormArr(items: seq<Json>)
    ensures NormNode(Arr(items)) == Arr(NormItems(items))
  {
  }

  lemma NormWritten(f: Fields)
    requires Shape(f)
    ensures Written(f, NormNode(Obj(f)).fields)
  {
    var r := Rewrite(f);
    RewrittenShape(f, r);
    RewriteCommutes(f);
    WrittenFields(f, r);
  }

  lemma WrittenFields(f: Fields, r: Fields)
    requires Shape(f)
    requires r.Keys == f.Keys + if Marked(f) then {"nullable"} else {}
    requires "oneOf" in f ==> r["oneOf"] == Arr(Retain(f["oneOf"].items))
    requires "anyOf" in f ==> r["anyOf"] == Arr(Retain(f["anyOf"].items))
    requires "type" in f ==> r["type"] == if f["type"].Arr? then Str(NonNullNames(f["type"].items)[0]) else f["type"]
    requires "nullable" in r ==> r["nullable"] == Bool(true)
    ensures Written(f, NormFields(r))
  {
    hide Marked, NonNullNames, Retain;
    var g := NormFields(r);
    assert g.Keys == r.Keys;
    if "oneOf" in f {
      NormArr(Retain(f["oneOf"].items));
    }
    if "anyOf" in f {
      NormArr(Retain(f["anyOf"].items));
    }
  }

  // ------------------------------------------------------- keyword by keyword

  lemma {:induction false} NamesMean(entries: seq<Json>, v: Json)
    ensures (exists e :: e in entries && e.Str? && KindOk(e.s, v)) <==>
            (v.Null? && Str("null") in entries) || exists t :: t in NonNullNames(entries) && KindOk(t, v)
  {
    if entries != [] {
      NamesMean(entries[1..], v);
      assert entries == [entries[0]] + entries[1..];
    }
  }

  /** The mark may change what null means; nothing else may. */
  predicate Undisturbed(d: Dialect, f: Fields, v: Json) {
    v.Null? ==> !DropsBranch(f, "oneOf") && !DropsBranch(f, "anyOf") && (d == V300 ==> !Marked(f))
  }

  lemma TypeSame(d: Dialect, f: Fields, g: Fields, v: Json)
    requires d != V31 && Shape(f) && Written(f, g) && Undisturbed(d, f, v)
    ensures TypeOk(d, g, v) <==> TypeOk(V31, f, v)
  {
    if "type" in f && f["type"].Arr? {
      var names := NonNullNames(f["type"].items);
      NamesMean(f["type"].items, v);
      CoveredByFirst(names, v);
    }
  }

  lemma CoveredByFirst(names: seq<string>, v: Json)
    requires FirstCovers(names) && "null" !in names
    ensures (exists t :: t in names && KindOk(t, v)) <==> KindOk(names[0], v)
  {
    assert forall t :: t in names && KindOk(t, v) ==> Known(t);
    assert KindOk(names[0], v) ==> names[0] in names;
  }

  /** A value of the named type that no type but itself (or "number", for integers) takes. */
  function Specimen(name: string): Json
    requires Known(name)
  {
    if name == "boolean" then Bool(true)
    else if name == "number" then Num(0.5)
    else if name == "integer" then Num(1.0)
    else if name == "string" then Str("")
    else if name == "array" then Arr([])
    else Obj(map[])
  }

  lemma SpecimenTells(name: string, other: string)
    requires Known(name)
    ensures KindOk(name, Specimen(name))
    ensures KindOk(other, Specimen(name)) <==> other == name || (name == "integer" && other == "number")
  {
    assert 0.5 as real != 0.5.Floor as real;
    assert 1.0.Floor as real == 1.0;
  }

  /** A type list keeps its meaning exactly when its first name covers the others. */
  lemma TypeListKeepsMeaningIff(f: Fields)
    requires "type" in f && f["type"].Arr? && "nullable" !in f
    requires Retype(f) != f
    ensures (forall v :: TypeOk(V303, Retype(f), v) <==> TypeOk(V31, f, v)) <==> FirstCovers(NonNullNames(f["type"].items))
  {
    var entries := f["type"].items;
    var names := NonNullNames(entries);
    var g := Retype(f);
    assert g["type"] == Str(Primary(entries)) && (Nullable(g) <==> Str("null") in entries);
    forall v ensures TypeOk(V31, f, v) <==> (v.Null? && Str("null") in entries) || exists t :: t in names && KindOk(t, v) {
      NamesMean(entries, v);
    }
    if FirstCovers(names) {
      forall v ensures TypeOk(V303, g, v) <==> TypeOk(V31, f, v) {
        CoveredByFirst(names, v);
      }
    } else if names == [] {
      SpecimenTells("string", "string");
      assert TypeOk(V303, g, Specimen("string")) && !TypeOk(V31, f, Specimen("string"));
    } else {
      var t :| t in names && Known(t) && t != names[0] && !(t == "integer" && names[0] == "number");
      SpecimenTells(t, names[0]);
      SpecimenTells(t, t);
      assert TypeOk(V31, f, Specimen(t)) && !TypeOk(V303, g, Specimen(t));
    }
  }

  lemma ScalarsSame(f: Fields, v: Json)
    requires Shape(f)
    ensures EnumOk(NormNode(Obj(f)).fields, v) <==> EnumOk(f, v)
    ensures RequiredOk(NormNode(Obj(f)).fields, v) <==> RequiredOk(f, v)
  {
    NormGet(f, "enum");
    NormGet(f, "required");
  }

  lemma {:induction false} CountSame(d: Dialect, branches: seq<Json>, v: Json, before: Refs, after: Refs)
    requires forall b :: b in branches ==> SameOn(d, b, v, before, after)
    ensures Count(d, NormItems(branches), v, after) == Count(V31, branches, v, before)
  {
    if branches != [] {
      assert SameOn(d, branches[0], v, before, after);
      CountSame(d, branches[1..], v, before, after);
      assert NormItems(branches)[1..] == NormItems(branches[1..]);
    }
  }

  /** Null branches accept null at most, so other values do not miss them. */
  lemma {:induction false} CountRetain(branches: seq<Json>, v: Json, refs: Refs)
    requires v.Null? ==> Retain(branches) == branches
    ensures Count(V31, Retain(branches), v, refs) == Count(V31, branches, v, refs)
  {
    if branches != [] && Retain(branches) != branches {
      CountRetain(branches[1..], v, refs);
      if IsNullBranch(branches[0]) {
        assert !TypeOk(V31, branches[0].fields, v);
        assert !Accepts(V31, branches[0], v, refs);
        assert Retain(branches) == Retain(branches[1..]);
      } else {
        assert Retain(branches)[1..] == Retain(branches[1..]);
      }
    }
  }

  lemma CombinatorSame(d: Dialect, f: Fields, key: string, v: Json, before: Refs, after: Refs)
    requires key in f && f[key].Arr?
    requires v.Null? ==> !DropsBranch(f, key)
    requires forall b :: b in Retain(f[key].items) ==> SameOn(d, b, v, before, after)
    ensures Count(d, NormItems(Retain(f[key].items)), v, after) == Count(V31, f[key].items, v, before)
  {
    RetainDrops(f[key].items);
    CountRetain(f[key].items, v, before);
    CountSame(d, Retain(f[key].items), v, before, after);
  }

  lemma CombinesSame(d: Dialect, f: Fields, v: Json, before: Refs, after: Refs)
    requires d != V31 && Shape(f) && SameBelow(d, f, before, after)
    requires v.Null? ==> !DropsBranch(f, "oneOf") && !DropsBranch(f, "anyOf")
    ensures Combines(d, NormNode(Obj(f)), v, after) <==> Combines(V31, Obj(f), v, before)
  {
    hide Count, Retain, Accepts;
    NormWritten(f);
    NormGet(f, "allOf");
    NormGet(f, "not");
    if "oneOf" in f {
      CombinatorSame(d, f, "oneOf", v, before, after);
    }
    if "anyOf" in f {
      CombinatorSame(d, f, "anyOf", v, before, after);
    }
    if "allOf" in f {
      CountSame(d, f["allOf"].items, v, before, after);
      NormArr(f["allOf"].items);
    }
    if "not" in f {
      assert SameOn(d, f["not"], v, before, after);
    }
  }

  /** A property table is an object of schemas, which the pass only descends into. */
  lemma PropertiesNorm(f: Fields)
    requires Shape(f) && "properties" in f
    ensures NormNode(f["properties"]) == Obj(NormFields(f["properties"].fields))
  {
    var p := f["properties"].fields;
    assert forall k :: k in p ==> p[k] in p.Values;
    assert NodeSettled(NormFields(p));
    RewriteFixed(NormFields(p));
  }

  lemma ContainsSame(d: Dialect, f: Fields, v: Json, before: Refs, after: Refs)
    requires Shape(f) && SameBelow(d, f, before, after)
    ensures Contains(d, NormNode(Obj(f)), v, after) <==> Contains(V31, Obj(f), v, before)
  {
    hide NormNode, Accepts;
    NormGet(f, "properties");
    NormGet(f, "additionalProperties");
    NormGet(f, "items");
    var g := NormNode(Obj(f)).fields;
    if "properties" in f {
      PropertiesNorm(f);
      var p := f["properties"].fields;
      forall k | k in p && v.Obj? && k in v.fields ensures SameOn(d, p[k], v.fields[k], before, after) {
        assert p[k] in p.Values;
      }
    }
    assert forall k :: Declares(g, k) <==> Declares(f, k);
    if "additionalProperties" in f && v.Obj? {
      assert forall k :: k in v.fields ==> SameOn(d, f["additionalProperties"], v.fields[k], before, after);
    }
    if "items" in f && v.Arr? {
      assert forall i :: 0 <= i < |v.items| ==> SameOn(d, f["items"], v.items[i], before, after);
    }
  }

  lemma RefAlone(f: Fields, v: Json, refs: Refs)
    requires NothingBeside(f)
    ensures Asserts(V31, Obj(f), v, refs)
  {
  }

  /** One object, its parts keeping their meaning: it agrees on every value but a marked null. */
  lemma NodeSame(d: Dialect, f: Fields, v: Json, before: Refs, after: Refs)
    requires d != V31 && Shape(f) && SameBelow(d, f, before, after) && SameRefs(before, after)
    requires Undisturbed(d, f, v)
    ensures SameOn(d, Obj(f), v, before, after)
  {
    hide SameBelow, Combines, Contains, EnumOk, RequiredOk;
    NormGet(f, "$ref");
    NormWritten(f);
    var g := NormNode(Obj(f)).fields;
    if "$ref" in f {
      RefAlone(f, v, before);
    } else {
      TypeSame(d, f, g, v);
      ScalarsSame(f, v);
      CombinesSame(d, f, v, before, after);
      ContainsSame(d, f, v, before, after);
      assert NormNode(Obj(f)) == Obj(g);
      assert Asserts(d, NormNode(Obj(f)), v, after) <==> Asserts(V31, Obj(f), v, before);
    }
  }

  // ------------------------------------------------------------- main results

  /** A faithful schema accepts the same values after the pass, at every depth. */
  lemma {:induction false} MeaningPreserved(d: Dialect, schema: Json, v: Json, before: Refs, after: Refs)
    requires d != V31
    requires Faithful(d, schema, before) && SameRefs(before, after)
    ensures SameOn(d, schema, v, before, after)
    decreases schema
  {
    if schema.Obj? {
      var f := schema.fields;
      forall sub, w | Below(f, sub) ensures SameOn(d, sub, w, before, after) {
        BelowSmaller(f, sub);
        MeaningPreserved(d, sub, w, before, after);
      }
      if v.Null? && d == V300 && Marked(f) {
        NormWritten(f);
        NormGet(f, "$ref");
      } else if v.Null? && d == V303 && "$ref" !in f {
        NullRewritten(f, before, after);
      } else {
        NodeSame(d, f, v, before, after);
      }
    }
  }

  /** Under the 3.0.0 wording a marked object keeps its meaning exactly when it accepted null. */
  lemma MarkedKeepsMeaningIff(f: Fields, before: Refs, after: Refs)
    requires Shape(f) && SameBelow(V300, f, before, after) && SameRefs(before, after)
    ensures (forall v :: SameOn(V300, Obj(f), v, before, after)) <==>
            (Marked(f) ==> Accepts(V31, Obj(f), Null, before))
  {
    NormWritten(f);
    NormGet(f, "$ref");
    forall v: Json | !v.Null? || !Marked(f) ensures SameOn(V300, Obj(f), v, before, after) {
      NodeSame(V300, f, v, before, after);
    }
    if Marked(f) {
      assert Accepts(V300, NormNode(Obj(f)), Null, after);
      assert SameOn(V300, Obj(f), Null, before, after) <==> Accepts(V31, Obj(f), Null, before);
    }
  }

  /**
   Under 3.0.3 an object keeps its meaning exactly when the old one accepts null just
   where the kept branches, and the mark beside `type`, let it through.
   */
  lemma CollapseKeepsMeaningIff(f: Fields, before: Refs, after: Refs)
    requires Shape(f) && SameBelow(V303, f, before, after) && SameRefs(before, after)
    ensures (forall v :: SameOn(V303, Obj(f), v, before, after)) <==> NullAgrees(V303, f, before)
  {
    hide Accepts, NullAfter;
    forall v: Json | !v.Null? || "$ref" in f ensures SameOn(V303, Obj(f), v, before, after) {
      NodeSame(V303, f, v, before, after);
    }
    if "$ref" !in f {
      NullRewritten(f, before, after);
      assert SameOn(V303, Obj(f), Null, before, after) <==> NullAgrees(V303, f, before);
    }
  }

  lemma NullRewritten(f: Fields, before: Refs, after: Refs)
    requires Shape(f) && "$ref" !in f && SameBelow(V303, f, before, after)
    ensures Accepts(V303, NormNode(Obj(f)), Null, after) <==> NullAfter(f, before)
  {
    hide Combines, NullCounts;
    NormGet(f, "$ref");
    NormWritten(f);
    ScalarsSame(f, Null);
    var n := NormNode(Obj(f));
    NullType(f, n.fields);
    NullCombines(f, before, after);
    assert n == Obj(n.fields) && "$ref" !in n.fields;
    assert Contains(V303, n, Null, after) && RequiredOk(n.fields, Null);
    assert Asserts(V303, n, Null, after) <==> NullAfter(f, before);
  }

  lemma NullType(f: Fields, g: Fields)
    requires Shape(f) && Written(f, g)
    ensures TypeOk(V303, g, Null) <==> ("type" in f ==> Marked(f) || f["type"] == Str("null"))
  {
    hide Marked, Nullable;
    if "type" in f && f["type"].Arr? {
      var names := NonNullNames(f["type"].items);
      assert names[0] in names && names[0] != "null";
    }
  }

  lemma NullCombines(f: Fields, before: Refs, after: Refs)
    requires Shape(f) && SameBelow(V303, f, before, after)
    ensures Combines(V303, NormNode(Obj(f)), Null, after) <==> NullCounts(f, before)
  {
    hide Count, Retain, Accepts;
    NormWritten(f);
    NormGet(f, "allOf");
    NormGet(f, "not");
    if "oneOf" in f {
      CountSame(V303, Retain(f["oneOf"].items), Null, before, after);
    }
    if "anyOf" in f {
      CountSame(V303, Retain(f["anyOf"].items), Null, before, after);
    }
    if "allOf" in f {
      CountSame(V303, f["allOf"].items, Null, before, after);
      NormArr(f["allOf"].items);
    }
    if "not" in f {
      assert SameOn(V303, f["not"], Null, before, after);
    }
  }

  lemma NullLost(f: Fields, key: string, before: Refs, after: Refs)
    requires key == "oneOf" || key == "anyOf"
    requires Shape(f) && SameBelow(V303, f, before, after)
    requires DropsBranch(f, key)
    requires forall b :: b in Retain(f[key].items) ==> !Accepts(V31, b, Null, before)
    ensures !Accepts(V303, NormNode(Obj(f)), Null, after)
  {
    NormWritten(f);
    NormGet(f, "$ref");
    var kept := Retain(f[key].items);
    assert forall b :: b in kept ==> Below(f, b);
    CountSame(V303, kept, Null, before, after);
    NoneAccept(kept, before);
    hide Contains, TypeOk, EnumOk, RequiredOk;
    assert !Combines(V303, NormNode(Obj(f)), Null, after);
  }

  lemma {:induction false} NoneAccept(branches: seq<Json>, refs: Refs)
    requires forall b :: b in branches ==> !Accepts(V31, b, Null, refs)
    ensures Count(V31, branches, Null, refs) == 0
  {
    if branches != [] {
      NoneAccept(branches[1..], refs);
    }
  }

  /** utoipa's encoding of an optional reference. */
  function OptionalReference(name: string): Json {
    Obj(map["oneOf" := Arr([Obj(map["type" := Str("null")]), Reference(name)])])
  }

  function Reference(name: string): Json {
    Obj(map["$ref" := Str(name)])
  }

  lemma OnlyRef(f: Fields)
    requires f.Keys == {"$ref"}
    ensures NothingBeside(f)
  {
    assert |"$ref"| == 4 && "type"[0] != "$ref"[0] && "enum"[0] != "$ref"[0];
    assert "type" !in f && "enum" !in f && "required" !in f;
    assert "oneOf" !in f && "anyOf" !in f && "allOf" !in f && "not" !in f;
    assert "properties" !in f && "additionalProperties" !in f && "items" !in f;
  }

  lemma ReferenceMeaning(d: Dialect, name: string, v: Json, refs: Refs)
    ensures Accepts(d, Reference(name), v, refs) <==> refs(name, v)
    ensures NormNode(Reference(name)) == Reference(name)
    ensures !IsNullBranch(Reference(name))
  {
    var f := Reference(name).fields;
    OnlyRef(f);
    RefAlone(f, v, refs);
    SettledFixed(Reference(name));
  }

  lemma OptionalReferenceShape(name: string)
    ensures var f := OptionalReference(name).fields; var branches := f["oneOf"].items;
      && Shape(f) && Retain(branches) == [Reference(name)] && DropsBranch(f, "oneOf")
      && forall sub :: Below(f, sub) ==> sub == Reference(name)
  {
    var f := OptionalReference(name).fields;
    var branches := f["oneOf"].items;
    ReferenceMeaning(V31, name, Null, (_, _) => true);
    assert f.Keys == {"oneOf"};
    assert branches[1..] == [Reference(name)];
    RetainUnchanged([Reference(name)]);
    assert IsNullBranch(branches[0]) && branches[0] in branches;
  }

  lemma OnlyType(f: Fields, refs: Refs)
    requires f.Keys == {"type"} && f["type"] == Str("null")
    ensures Accepts(V31, Obj(f), Null, refs)
  {
    assert |"type"| == 4 && "type"[0] != "$ref"[0] && "type"[0] != "enum"[0];
    assert "$ref" !in f && "enum" !in f && "required" !in f;
    assert "oneOf" !in f && "anyOf" !in f && "allOf" !in f && "not" !in f;
    assert "properties" !in f && "additionalProperties" !in f && "items" !in f;
  }

  /** It takes null before the pass; afterwards 3.0.3 no longer does, 3.0.0 still does. */
  lemma OptionalReferenceLosesNull(name: string, refs: Refs)
    requires !refs(name, Null)
    ensures Accepts(V31, OptionalReference(name), Null, refs)
    ensures !Accepts(V303, NormNode(OptionalReference(name)), Null, refs)
    ensures Accepts(V300, NormNode(OptionalReference(name)), Null, refs)
  {
    OptionalReferenceTakesNull(name, refs);
    OptionalReferenceRewritten(name, refs);
  }

  lemma NullBesideReference(name: string, refs: Refs)
    requires !refs(name, Null)
    ensures var branches := OptionalReference(name).fields["oneOf"].items;
            branches[1..] == [Reference(name)] && Count(V31, branches, Null, refs) == 1
  {
    var branches := OptionalReference(name).fields["oneOf"].items;
    ReferenceMeaning(V31, name, Null, refs);
    OnlyType(branches[0].fields, refs);
    assert branches[1..] == [Reference(name)];
    NoneAccept(branches[1..], refs);
  }

  lemma OptionalReferenceTakesNull(name: string, refs: Refs)
    requires !refs(name, Null)
    ensures Accepts(V31, OptionalReference(name), Null, refs)
  {
    hide Count;
    var f := OptionalReference(name).fields;
    NullBesideReference(name, refs);
    OnlyOneOf(f, refs);
  }

  lemma OnlyOneOf(f: Fields, refs: Refs)
    requires f.Keys == {"oneOf"} && f["oneOf"].Arr?
    ensures Accepts(V31, Obj(f), Null, refs) <==> Count(V31, f["oneOf"].items, Null, refs) == 1
  {
    hide Count;
    assert |"oneOf"| == 5 && |"anyOf"| == 5 && "oneOf"[0] != "anyOf"[0] && |"items"| == 5 && "oneOf"[0] != "items"[0] && "allOf"[0] != "oneOf"[0];
    assert "$ref" !in f && "enum" !in f && "required" !in f && "type" !in f;
    assert "anyOf" !in f && "allOf" !in f && "not" !in f;
    assert "properties" !in f && "additionalProperties" !in f && "items" !in f;
    assert TypeOk(V31, f, Null) && EnumOk(f, Null) && RequiredOk(f, Null);
    assert Contains(V31, Obj(f), Null, refs);
    assert Combines(V31, Obj(f), Null, refs) <==> Count(V31, f["oneOf"].items, Null, refs) == 1;
  }

  lemma OptionalReferenceRewritten(name: string, refs: Refs)
    requires !refs(name, Null)
    ensures !Accepts(V303, NormNode(OptionalReference(name)), Null, refs)
    ensures Accepts(V300, NormNode(OptionalReference(name)), Null, refs)
  {
    var f := OptionalReference(name).fields;
    var branches := f["oneOf"].items;
    OptionalReferenceShape(name);
    forall d, w
      ensures Accepts(d, Reference(name), w, refs) <==> refs(name, w)
      ensures NormNode(Reference(name)) == Reference(name)
    {
      ReferenceMeaning(d, name, w, refs);
    }
    assert branches[1..] == [Reference(name)];
    assert f.Keys == {"oneOf"};
    NormWritten(f);
    NormGet(f, "$ref");
    NullLost(f, "oneOf", refs, refs);
  }

  // ----------------------------------------------------------- closing the refs

  /** A meaning of references that the components themselves give. */
  ghost predicate Solves(d: Dialect, components: Fields, refs: Refs) {
    forall name, v :: refs(name, v) <==> name in components && Accepts(d, components[name], v, refs)
  }

  /** The meanings the old components give to references are those the rewritten ones give. */
  lemma SolutionsPreserved(d: Dialect, components: Fields, refs: Refs)
    requires d != V31 && forall c :: c in components ==> Faithful(d, components[c], refs)
    ensures Solves(V31, components, refs) <==> Solves(d, NormFields(components), refs)
  {
    hide Accepts, Faithful;
    var rewritten := NormFields(components);
    forall name, v | name in components
      ensures Accepts(d, rewritten[name], v, refs) <==> Accepts(V31, components[name], v, refs)
    {
      MeaningPreserved(d, components[name], v, refs, refs);
    }
  }

  /** References resolved through `n` levels of components. */
  ghost function Closed(d: Dialect, components: Fields, n: nat): Refs {
    (name, v) => n > 0 && name in components && Accepts(d, components[name], v, Closed(d, components, n - 1))
  }

  /** Rewriting every component keeps every reference, at every level of unfolding. */
  lemma {:induction false} ComponentsPreserved(d: Dialect, components: Fields, n: nat)
    requires d != V31
    requires forall m: nat, c :: c in components ==> Faithful(d, components[c], Closed(V31, components, m))
    ensures SameRefs(Closed(V31, components, n), Closed(d, NormFields(components), n))
  {
    if n > 0 {
      ComponentsPreserved(d, components, n - 1);
      forall name, v
        ensures Closed(d, NormFields(components), n)(name, v) == Closed(V31, components, n)(name, v)
      {
        if name in components {
          MeaningPreserved(d, components[name], v, Closed(V31, components, n - 1), Closed(d, NormFields(components), n - 1));
        }
      }
    }
  }
}
