/**
 * The library calls the toolset relies on without defining them. The model
 * takes them as values of `Lib`, so every property proved here holds whatever
 * HMAC-SHA-256, base64, UTF-8 and JSON serialisation actually compute.
 */
module Primitives {
  import opened Text
  import Json

  datatype Lib = Lib(
    /** `hmac.new(key, msg, hashlib.sha256).digest()` */
    hmacSha256: (Bytes, Bytes) -> Bytes,
    /** `base64.b64encode(d).decode()` */
    b64encode: Bytes -> string,
    /** `s.encode()` */
    utf8: string -> Bytes,
    /** `json.dumps({'name': name, 'query': query}).encode()` */
    dumpsQuery: (string, string) -> Bytes,
    /** `str(v)` of a decoded JSON list or dict */
    strOf: Json.Value -> string
  )
}
