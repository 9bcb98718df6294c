/**
 The OpenAPI 3.1 to 3.0 rewriting of a whole document: version, nullable
 idioms, streaming operations, content-less responses.

 The functions say what each pass computes; the methods of `Document` do it the
 way the program does, key by key. The schema rewriting is the one place where
 the two differ in shape: the program rewrites an object before it descends into
 the object's values, the function descends first.
 */
module Normalize {
  import opened JsonModel

  // ---------------------------------------------------------------- version

  function Version(doc: Json): Json {
    if doc.Obj? && "openapi" in doc.fields && doc.fields["openapi"].Str? && "3.1." <= doc.fields["openapi"].s
    then Obj(doc.fields["openapi" := Str("3.0.3")])
    else doc
  }

  // ----------------------------------------------------------- schema nodes

  /** A `{"type": "null"}` branch of a combinator. */
  predicate IsNullBranch(branch: Json) {
    branch.Obj? && "type" in branch.fields && branch.fields["type"] == Str("null")
  }

  function Retain(options: seq<Json>): (kept: seq<Json>)
    ensures |kept| <= |options|
    ensures forall e :: e in kept <==> e in options && !IsNullBranch(e)
    ensures |kept| == |options| ==> kept == options
  {
    if options == [] then []
    else if IsNullBranch(options[0]) then Retain(options[1..])
    else [options[0]] + Retain(options[1..])
  }

  function Collapse(f: Fields, key: string): Fields {
    if key in f && f[key].Arr? then
      var kept := Retain(f[key].items);
      var g := f[key := Arr(kept)];
      if kept != f[key].items && kept != [] && "nullable" !in g then g["nullable" := Bool(true)] else g
    else f
  }

  /** The names a type array lists besides "null", in order. */
  function NonNullNames(entries: seq<Json>): (names: seq<string>)
    ensures "null" !in names
  {
    if entries == [] then []
    else if entries[0].Str? && entries[0].s != "null" then [entries[0].s] + NonNullNames(entries[1..])
    else NonNullNames(entries[1..])
  }

  function Primary(entries: seq<Json>): (name: string)
    ensures name != "null"
  {
    if NonNullNames(entries) == [] then "string" else NonNullNames(entries)[0]
  }

  function Retype(f: Fields): Fields {
    if "type" in f && f["type"].Arr? && (Str("null") in f["type"].items || NonNullNames(f["type"].items) != []) then
      var g := f["type" := Str(Primary(f["type"].items))];
      if Str("null") in f["type"].items then g["nullable" := Bool(true)] else g
    else f
  }

  function Rewrite(f: Fields): Fields {
    Retype(Collapse(Collapse(f, "oneOf"), "anyOf"))
  }

  function NormNode(node: Json): (out: Json)
    ensures out.Obj? <==> node.Obj?
    ensures out.Arr? <==> node.Arr?
    ensures !node.Obj? && !node.Arr? ==> out == node
    decreases node, 1
  {
    match node
    case Obj(f) => Obj(Rewrite(map k | k in f :: NormNode(f[k])))
    case Arr(items) => Arr(NormItems(items))
    case _ => node
  }

  function NormItems(items: seq<Json>): (r: seq<Json>)
    ensures |r| == |items|
    ensures forall i :: 0 <= i < |items| ==> r[i] == NormNode(items[i])
    decreases items, 0
  {
    if items == [] then [] else [NormNode(items[0])] + NormItems(items[1..])
  }

  function NormFields(f: Fields): Fields {
    map k | k in f :: NormNode(f[k])
  }

  // ------------------------------------------------------------ drop passes

  function KeepOperations(item: Json): Json {
    if item.Obj? then
      Obj(map m | m in item.fields && !(IsMethod(m) && IsSse(item.fields[m])) :: item.fields[m])
    else item
  }

  function KeepPaths(paths: Fields): Fields {
    map p | p in paths && KeepOperations(paths[p]) != Obj(map[]) :: KeepOperations(paths[p])
  }

  function DropSse(doc: Json): Json {
    if HasObj(doc, "paths")
    then Obj(doc.fields["paths" := Obj(KeepPaths(doc.fields["paths"].fields))])
    else doc
  }

  function KeepResponses(responses: Fields): Fields {
    if HasBody(responses)
    then map s | s in responses && HasContent(responses[s]) :: responses[s]
    else responses
  }

  function TrimOperation(op: Json): Json {
    if HasObj(op, "responses")
    then Obj(op.fields["responses" := Obj(KeepResponses(op.fields["responses"].fields))])
    else op
  }

  function TrimItem(item: Json): Json {
    if item.Obj?
    then Obj(map m | m in item.fields :: if IsMethod(m) then TrimOperation(item.fields[m]) else item.fields[m])
    else item
  }

  function DropBare(doc: Json): Json {
    if HasObj(doc, "paths")
    then Obj(doc.fields["paths" := Obj(map p | p in doc.fields["paths"].fields :: TrimItem(doc.fields["paths"].fields[p]))])
    else doc
  }

  function Normalized(doc: Json): Json {
    DropBare(DropSse(NormNode(Version(doc))))
  }
}
