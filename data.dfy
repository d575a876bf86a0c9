/**
 * Values shared by the fixture libraries: parsed JSON trees, the payloads
 * stored in the dynamic binding context, and the shape of a structural
 * comparison result.
 */
module Data {

  type byte = x: int | 0 <= x < 256

  /** The name under which a dynamic binding is stored. */
  datatype BindingKey = BindingKey(name: string)

  /** A MongoDB object identifier: twelve bytes. */
  datatype ObjectId = ObjectId(bytes: seq<byte>)

  /** A value held by the binding context or read from a document (Kotlin `Any?`). */
  datatype Value =
    | Null
    | Str(s: string)
    | Num(n: int)
    | Bool(b: bool)
    | Oid(id: ObjectId)

  /** An already-parsed JSON tree; object fields keep their document order. */
  datatype Json =
    | JNull
    | JString(s: string)
    | JNumber(n: int)
    | JBool(b: bool)
    | JObject(fields: seq<Field>)
    | JArray(items: seq<Json>)

  datatype Field = Field(key: string, value: Json)

  /** A leaf is a JSON value that is neither null nor a container. */
  predicate IsLeaf(j: Json) {
    j.JString? || j.JNumber? || j.JBool?
  }

  /**
   * What the structural comparator reports: the path-qualified mismatches
   * (empty means a match) and the bindings captured during the comparison,
   * in the iteration order of the comparator's result map.
   */
  datatype ComparisonResult = ComparisonResult(
    errors: seq<string>,
    boundDynamicValues: seq<(BindingKey, Value)>)

  /** An HTTP request: its method, its path and its body, already parsed. */
  datatype HttpRequest = HttpRequest(httpMethod: string, path: string, body: Json)

  /** The structural comparator: (expected, actual, strict) to a result. */
  type Comparator = (Json, Json, bool) -> ComparisonResult
}
