/**
 * Abstract JSON documents: the values Python's `json` module reads from and
 * writes to text. Formatting (indentation, escaping of non-ASCII characters)
 * is not modelled; a document is its parsed value.
 */
module Json {

  datatype Value =
    | JNull
    | JBool(b: bool)
    | JNumber(literal: string)   // kept as its literal text; arithmetic is never needed
    | JString(s: string)
    | JArray(items: seq<Value>)
    | JObject(fields: map<string, Value>)

  /** A flat object whose every value is a string: the shape of a replacement
      table and of one correction dictionary. Object keys are always strings. */
  predicate IsStringMap(j: Value) {
    j.JObject? && forall k :: k in j.fields ==> j.fields[k].JString?
  }

  /** A Python `Dict[str, str]` as the JSON object it serializes to. */
  function FromStringMap(m: map<string, string>): (j: Value)
    ensures IsStringMap(j)
  {
    JObject(map k | k in m :: JString(m[k]))
  }

  /** The empty object `{}`. */
  const Empty: Value := JObject(map[])

  /** Python's `fields.get(key, default)` on a parsed object. */
  function Get(fields: map<string, Value>, key: string, default: Value): Value {
    if key in fields then fields[key] else default
  }
}
