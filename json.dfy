/** Loosely typed JSON values as the directory endpoint delivers them, with the two
    JavaScript notions that normalisation depends on: truthiness and property access. */
module Json {

  datatype Option<+T> = None | Some(value: T)

  /** The outcome of an expression that may throw. The only exception the normaliser can
      raise is the TypeError of reading a property of `null`. */
  datatype Result<+T> = Ok(value: T) | TypeError

  /** Runs a sequence of computations in order: the first TypeError propagates, otherwise
      every value is kept, in order. */
  function Collect<T>(rs: seq<Result<T>>): (r: Result<seq<T>>)
    ensures r.Ok? <==> forall i :: 0 <= i < |rs| ==> rs[i].Ok?
    ensures r.Ok? ==> |r.value| == |rs|
    ensures r.Ok? ==> forall i :: 0 <= i < |rs| ==> r.value[i] == rs[i].value
  {
    if rs == [] then Ok([])
    else
      match rs[0]
      case TypeError => TypeError
      case Ok(v) =>
        match Collect(rs[1..])
        case TypeError => TypeError
        case Ok(vs) => Ok([v] + vs)
  }

  /** A parsed JSON value. Numbers are modelled as integers. */
  datatype Json =
    | JNull
    | JBool(b: bool)
    | JNum(n: int)
    | JStr(s: string)
    | JArr(items: seq<Json>)
    | JObj(fields: map<string, Json>)

  /** JavaScript truthiness of a value; `None` stands for `undefined`. */
  predicate Truthy(v: Option<Json>)
  {
    match v
    case None => false
    case Some(JNull) => false
    case Some(JBool(b)) => b
    case Some(JNum(n)) => n != 0
    case Some(JStr(s)) => s != ""
    case Some(_) => true
  }

  /** `v?.key`: the named property of an object, and `undefined` for anything else
      (a missing value, `null`, a primitive or an array). */
  function Field(v: Option<Json>, key: string): (r: Option<Json>)
    ensures r.Some? <==> v.Some? && v.value.JObj? && key in v.value.fields
    ensures r.Some? ==> r.value == v.value.fields[key]
  {
    match v
    case Some(JObj(fields)) => if key in fields then Some(fields[key]) else None
    case _ => None
  }

  /** The string that `v || fallback` keeps when `v` is a string: a non-empty one. */
  function Text(v: Option<Json>): (r: Option<string>)
    ensures r.Some? ==> r.value != "" && Truthy(v)
  {
    match v
    case Some(JStr(s)) => if s != "" then Some(s) else None
    case _ => None
  }

  /** `v || fallback` for a string-valued field. */
  function TextOr(v: Option<Json>, fallback: string): (r: string)
    ensures Truthy(v) && v.value.JStr? ==> r == v.value.s
    ensures !Truthy(v) ==> r == fallback
  {
    match Text(v)
    case Some(s) => s
    case None => fallback
  }
}
