/** Decoded JSON documents, as `response.json()` hands them to the toolset. */
module Json {
  import opened Wrappers

  datatype Value =
    | Null
    | Bool(b: bool)
    | Number(n: int)
    | Str(s: string)
    | Array(items: seq<Value>)
    | Object(fields: map<string, Value>)

  /** `v[key]`: succeeds only on an object that has the key; on anything else Python raises. */
  function Lookup(v: Value, key: string): Option<Value> {
    if v.Object? && key in v.fields then Some(v.fields[key]) else None
  }

  /** The value reached by following `path` key by key, if every step exists. */
  function At(v: Value, path: seq<string>): (r: Option<Value>)
    ensures |path| == 0 ==> r == Some(v)
    ensures |path| > 0 && r.Some? ==> Lookup(v, path[0]).Some?
    decreases |path|
  {
    if path == [] then Some(v)
    else match Lookup(v, path[0])
      case None => None
      case Some(w) => At(w, path[1..])
  }
}
