/** JSON values as `res.json()` yields them, and the parts of JavaScript's dynamic typing the
    screens rely on when they read such a value: truthiness and property access. */
module Json {
  import opened Wrappers

  datatype Json =
    | JNull
    | JBool(b: bool)
    | JNum(n: real)
    | JStr(s: string)
    | JArr(items: seq<Json>)
    | JObj(fields: map<string, Json>)

  /** JavaScript truthiness of a JSON value: null, false, 0 and "" are falsy; every array and
      every object is truthy. */
  predicate TruthyValue(j: Json) {
    match j
    case JNull => false
    case JBool(b) => b
    case JNum(n) => n != 0.0
    case JStr(s) => s != ""
    case JArr(_) => true
    case JObj(_) => true
  }

  /** `j.key` on a value that is not null: the property of an object, and `undefined` (None)
      for a missing key and for every value that is not an object. */
  function Get(j: Json, key: string): (r: Option<Json>)
    ensures r.Some? <==> j.JObj? && key in j.fields
    ensures r.Some? ==> r.value == j.fields[key]
  {
    if j.JObj? && key in j.fields then Some(j.fields[key]) else None
  }

  /** Truthiness of a property that may be `undefined`. */
  predicate TruthyField(v: Option<Json>) {
    v.Some? && TruthyValue(v.value)
  }
}
