/**
 * JSON values as the Ruby code sees them after `JSON.parse`, the exceptions it
 * can raise, and the handful of Ruby methods the item classes call on such
 * values (`Hash#[]`, `Hash#fetch`, `#empty?`, `#[]` with a String argument).
 */
module RubyJson {
  import opened Wrappers
  import opened RubyString

  /** A parsed JSON value. Numbers are integers only. */
  datatype Json =
    | JNull
    | JBool(b: bool)
    | JNum(n: int)
    | JString(s: string)
    | JArray(items: seq<Json>)
    | JObject(fields: map<string, Json>)

  /** A JSON object as a Ruby Hash with String keys. */
  type Hash = map<string, Json>

  /** The exceptions the modelled code raises. */
  datatype RubyError =
    | NoMethodError
    | TypeError
    | ArgumentError
    | NameError
    | ItemError(message: string)
    | NoSqlItemError(message: string)
    | NotImplementedError

  /** `h[k]`: nil when the key is absent. */
  function Get(h: Hash, k: string): Json {
    if k in h then h[k] else JNull
  }

  /** `h.fetch(k, default)`: the default only when the key is absent. */
  function Fetch(h: Hash, k: string, default: Json): Json {
    if k in h then h[k] else default
  }

  /** `h[k].nil?` */
  predicate IsNil(h: Hash, k: string) {
    Get(h, k) == JNull
  }

  /** `v.empty?`: defined on String, Array and Hash; NoMethodError on nil, booleans and numbers. */
  function IsEmpty(v: Json): (r: Result<bool, RubyError>)
    ensures r.Failure? <==> (v.JNull? || v.JBool? || v.JNum?)
    ensures r == Success(true) ==> v in {JString(""), JArray([]), JObject(map[])}
  {
    match v
    case JString(s) => Success(|s| == 0)
    case JArray(items) => Success(|items| == 0)
    case JObject(fields) => Success(|fields| == 0)
    case _ => Failure(NoMethodError)
  }

  /**
   * `v[k]` for a String `k`: a Hash looks the key up; a String returns `k`
   * when `k` occurs in it and nil otherwise; an Array or an Integer raise
   * TypeError (no implicit conversion of String into Integer); nil and the
   * booleans have no `[]` and raise NoMethodError.
   */
  function Index(v: Json, k: string): (r: Result<Json, RubyError>)
    ensures v.JObject? ==> r == Success(Get(v.fields, k))
    ensures r.Success? ==> r.value.JNull? || v.JObject? || r.value == JString(k)
  {
    match v
    case JObject(fields) => Success(Get(fields, k))
    case JString(s) => Success(if Contains(s, k) then JString(k) else JNull)
    case JArray(_) => Failure(TypeError)
    case JNum(_) => Failure(TypeError)
    case _ => Failure(NoMethodError)
  }

  /** `v if v.is_a?(String)`: nil for every other value. */
  function StringOf(v: Json): (r: Option<string>)
    ensures r.Some? <==> v.JString?
  {
    if v.JString? then Some(v.s) else None
  }

  /**
   * The value as the receiver of a String method guarded by `nil?`: nil stays
   * nil, a String is usable, anything else raises NoMethodError.
   */
  function NilOrString(v: Json): (r: Result<Option<string>, RubyError>)
    ensures r.Failure? <==> !(v.JNull? || v.JString?)
    ensures r == Success(None) <==> v.JNull?
  {
    match v
    case JNull => Success(None)
    case JString(s) => Success(Some(s))
    case _ => Failure(NoMethodError)
  }

  /** A String or nil as a JSON value. */
  function OptString(o: Option<string>): (r: Json)
    ensures r.JNull? <==> o.None?
  {
    match o
    case None => JNull
    case Some(s) => JString(s)
  }
}
