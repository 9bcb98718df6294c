/** JSON documents as owned trees, the way `serde_json::Value` holds them. */
module JsonModel {

  datatype Json =
    | Null
    | Bool(b: bool)
    | Num(n: real)
    | Str(s: string)
    | Arr(items: seq<Json>)
    | Obj(fields: map<string, Json>)

  type Fields = map<string, Json>

  /** `value.get(key)` followed by `as_object`: the nested object, if there is one. */
  predicate HasObj(j: Json, key: string) {
    j.Obj? && key in j.fields && j.fields[key].Obj?
  }

  /** The HTTP methods both drop passes and the injector look at, in their order. */
  const METHODS: seq<string> := ["get", "put", "post", "delete", "options", "head", "patch", "trace"]

  predicate IsMethod(name: string) {
    name in METHODS
  }

  /** A response documents a body when its `content` is a non-empty object. */
  predicate HasContent(response: Json) {
    HasObj(response, "content") && response.fields["content"].fields != map[]
  }

  /** `operation_is_sse`: some response offers `text/event-stream`. */
  predicate IsSse(op: Json) {
    HasObj(op, "responses") &&
    exists k :: k in op.fields["responses"].fields && OffersStream(op.fields["responses"].fields[k])
  }

  predicate OffersStream(response: Json) {
    HasObj(response, "content") && "text/event-stream" in response.fields["content"].fields
  }

  predicate HasBody(responses: Fields) {
    exists k :: k in responses && HasContent(responses[k])
  }
}
