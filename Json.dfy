/**
  The JSON tree the classifier client builds its request from and reads the
  provider's response into (Jackson's JsonNode). An object is a map from
  field name to value; the order of its members is not kept.
 */
module Json {
  import opened Lang

  datatype Json =
    | JNull
    | JBool(b: bool)
      /** a number, carried as its JSON text */
    | JNumber(text: string)
    | JString(s: string)
    | JArray(items: seq<Json>)
    | JObject(fields: map<string, Json>)

  /** JsonNode.get(String): the member of an object, null for any other
      node or a missing member. */
  function Get(node: Json, key: string): (r: Option<Json>)
    ensures r.Some? <==> node.JObject? && key in node.fields
  {
    if node.JObject? && key in node.fields then Some(node.fields[key]) else None
  }

  /** JsonNode.isTextual. */
  predicate IsTextual(node: Json) {
    node.JString?
  }

  /** JsonNode.asText: a string's value, a scalar's literal text, and the
      empty string for an array or object. */
  function AsText(node: Json): string {
    match node
    case JNull => "null"
    case JBool(b) => if b then "true" else "false"
    case JNumber(t) => t
    case JString(s) => s
    case JArray(_) => ""
    case JObject(_) => ""
  }

  /** The elements of an array node, and none for any other node: what a
      guarded `isArray()` iteration visits. */
  function Elements(node: Option<Json>): seq<Json> {
    if node.Some? && node.value.JArray? then node.value.items else []
  }
}
