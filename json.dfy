/** The JSON values the client receives from the API, with JavaScript's
    truthiness and property access. `JNull` stands for both `null` and
    `undefined`: every operation modelled here treats the two alike. */
module Json {
  import opened Common

  datatype Json =
    | JNull
    | JBool(b: bool)
    | JNum(n: int)
    | JStr(s: string)
    | JArr(items: seq<Json>)
    | JObj(fields: map<string, Json>)

  /** JavaScript truthiness: `null`, `undefined`, `false`, `0` and `""` are
      falsy; every array and every object is truthy. */
  predicate Truthy(j: Json) {
    match j
    case JNull => false
    case JBool(b) => b
    case JNum(n) => n != 0
    case JStr(s) => s != ""
    case JArr(_) => true
    case JObj(_) => true
  }

  /** `j?.key`: the property of an object, `undefined` for a missing key and
      for every value that is not an object. */
  function Get(j: Json, key: string): Json {
    if j.JObj? && key in j.fields then j.fields[key] else JNull
  }

  /** `Array.isArray(j)`. */
  predicate IsArray(j: Json) {
    j.JArr?
  }
}
