/** JSON documents as Python's json module loads them. */
module Json {

  datatype Json =
    | Null
    | Bool(b: bool)
    | Num(n: real)
    | NonFinite
    | Str(s: string)
    | List(items: seq<Json>)
    | Obj(fields: map<string, Json>)
  {
    /** dict.get(key) */
    function Get(key: string): Json
      requires Obj?
    {
      if key in fields then fields[key] else Null
    }
  }

  /** json.dumps(..., allow_nan=False) accepts the value. */
  predicate Serializable(j: Json) {
    match j
    case NonFinite => false
    case List(items) => forall i :: 0 <= i < |items| ==> Serializable(items[i])
    case Obj(fields) => forall k :: k in fields ==> Serializable(fields[k])
    case _ => true
  }

  /**
   * Every text in the value, keys included, can be encoded: a lone surrogate, which Python's strings may hold, cannot.
   */
  predicate Encodable(j: Json, encodes: string -> bool) {
    match j
    case Str(s) => encodes(s)
    case List(items) => forall i :: 0 <= i < |items| ==> Encodable(items[i], encodes)
    case Obj(fields) => forall k :: k in fields ==> encodes(k) && Encodable(fields[k], encodes)
    case _ => true
  }
}
