/** The JSON values the handlers build and send, and lodash's `_.pick` on them. */
module Json {

  datatype Value =
    | JNull
    | JBool(b: bool)
    | JNum(n: int)
    | JStr(s: string)
    | JArr(elems: seq<Value>)
    | JObj(fields: map<string, Value>)

  /** A plain JavaScript object: its own keys and their values. */
  type Object = map<string, Value>

  /** JavaScript truthiness (arrays and objects are always truthy). */
  predicate Truthy(v: Value)
  {
    match v
    case JNull => false
    case JBool(b) => b
    case JNum(n) => n != 0
    case JStr(s) => s != ""
    case JArr(_) => true
    case JObj(_) => true
  }

  /** The own keys of a value; a primitive has none that `_.pick` could select. */
  function Fields(v: Value): Object
  {
    if v.JObj? then v.fields else map[]
  }

  /** `_.pick(obj, keys)`: exactly the entries of `obj` whose key is listed. */
  function Pick(obj: Object, keys: set<string>): (r: Object)
    ensures r.Keys == obj.Keys * keys
    ensures forall k :: k in r ==> r[k] == obj[k]
  {
    map k | k in obj.Keys * keys :: obj[k]
  }
}
