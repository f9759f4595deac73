/**
 * JSON values (RFC 8259) as JavaScript sees them after `JSON.parse`, with the two
 * JavaScript operations the flows apply to them: reading a property and testing
 * truthiness. An object is a map from member names to values (`JSON.parse` keeps
 * the last of duplicate names); `undefined`, the value of a missing property, is
 * `None` where an `Option<Json>` is used.
 */
module Json {
  import opened Wrappers

  datatype Json =
    | JNull
    | JBool(b: bool)
    | JNumber(n: real)
    | JString(s: string)
    | JArray(items: seq<Json>)
    | JObject(fields: map<string, Json>)

  /** `typeof v === 'object' && v !== null`: arrays and objects. */
  predicate IsObjectLike(j: Json): (b: bool)
    ensures b <==> !(j == JNull || j.JBool? || j.JNumber? || j.JString?)
  {
    j.JArray? || j.JObject?
  }

  /**
   * `j.key` for a value that is not null: the member of an object, and
   * undefined for a missing member, an array, a string, a number or a boolean
   * (none of the member names read here is an inherited property).
   */
  function Get(j: Json, key: string): (r: Option<Json>)
    ensures !j.JObject? ==> r == None
    ensures j.JObject? ==> (r.Some? <==> key in j.fields)
    ensures r.Some? ==> r.value == j.fields[key]
  {
    if j.JObject? && key in j.fields then Some(j.fields[key]) else None
  }

  /**
   * ToBoolean (section 7.1.2 of ECMA-262), extended to `undefined` (None):
   * undefined, null, false, 0 and "" are falsy; every other number and string
   * and every array and object, empty or not, is truthy.
   */
  predicate Truthy(v: Option<Json>): (b: bool)
    ensures b <==> v.Some? && v.value !in {JNull, JBool(false), JNumber(0.0), JString("")}
    ensures v.Some? && IsObjectLike(v.value) ==> b
  {
    match v
    case None => false
    case Some(JNull) => false
    case Some(JBool(b)) => b
    case Some(JNumber(n)) => n != 0.0
    case Some(JString(s)) => s != ""
    case Some(JArray(_)) => true
    case Some(JObject(_)) => true
  }
}
