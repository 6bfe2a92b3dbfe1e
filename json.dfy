/** The JSON values a proxy response decodes to, and the two JavaScript
    tests the cache applies to them: truthiness and the `error` field. */
module Json {
  import opened Base

  /** Numbers are integers here; fractional values, NaN and -0 are not modelled. */
  datatype Json =
    | JNull
    | JBool(b: bool)
    | JNum(n: int)
    | JStr(s: string)
    | JArr(items: seq<Json>)
    | JObj(fields: map<string, Json>)

  /** JavaScript truthiness of a decoded value: `null`, `false`, `0` and `""`
      are falsy, every array and object is truthy. */
  predicate Truthy(j: Json)
  {
    match j
    case JNull => false
    case JBool(b) => b
    case JNum(n) => n != 0
    case JStr(s) => s != ""
    case JArr(_) => true
    case JObj(_) => true
  }

  /** Property access `j.name` on a decoded body, read for an own field of an
      object (the only name read is `error`): `None` stands for `undefined`. */
  function Field(j: Json, name: string): (r: Option<Json>)
    ensures r.Some? <==> j.JObj? && name in j.fields
    ensures r.Some? ==> r.value == j.fields[name]
  {
    if j.JObj? && name in j.fields then Some(j.fields[name]) else None
  }

  /** `data.error` is truthy: the body carries an error marker. */
  predicate HasError(j: Json)
  {
    var e := Field(j, "error");
    e.Some? && Truthy(e.value)
  }

  /** The condition `data && !data.error` under which a body may be cached. */
  predicate Cacheable(j: Json)
  {
    Truthy(j) && !HasError(j)
  }

  /** Every failure body of the proxy is an object whose `error` is a
      non-empty string, so none of them is cacheable. */
  lemma ProxyErrorNotCacheable(message: string, extra: map<string, Json>)
    requires message != ""
    ensures !Cacheable(JObj(extra["error" := JStr(message)]))
  {
  }
}
