/**
 * The request signature: a chain of three HMAC-SHA-256 links (RFC 2104 over
 * FIPS 180-4), each keyed by the raw digest of the link before it, the first
 * keyed by the API token secret. The result is base64-encoded.
 */
module Signing {
  import opened Wrappers
  import opened Text
  import opened Primitives

  /**
   * An HMAC digester: keyed once, then fed message bytes with `Update`.
   * Its digest is the MAC of everything absorbed so far.
   */
  class Digester {
    const mac: (Bytes, Bytes) -> Bytes
    const key: Bytes
    var absorbed: Bytes

    constructor (mac: (Bytes, Bytes) -> Bytes, key: Bytes)
      ensures this.mac == mac && this.key == key && absorbed == []
    {
      this.mac := mac;
      this.key := key;
      absorbed := [];
    }

    method Update(msg: Bytes)
      modifies this
      ensures absorbed == old(absorbed) + msg
    {
      absorbed := absorbed + msg;
    }

    function Digest(): Bytes
      reads this
    {
      mac(key, absorbed)
    }
  }

  /** The part of the request timestamp that is signed: `timestamp[:13]`, date and hour. */
  function TimeWindow(timestamp: string): (w: string)
    ensures w <= timestamp
    ensures |w| == if |timestamp| < 13 then |timestamp| else 13
  {
    if |timestamp| <= 13 then timestamp else timestamp[..13]
  }

  /** The bytes the last link absorbs: the body, or nothing when there is none. */
  function BodyBytes(body: Option<Bytes>): Bytes {
    if body.Some? then body.value else []
  }

  /** First link: keyed by the token secret, over the verb and the path as given. */
  function OperationKey(lib: Lib, tokenKey: string, verb: string, path: string): Bytes {
    lib.hmacSha256(lib.utf8(tokenKey), lib.utf8(verb + path))
  }

  /** Second link: keyed by the first, over the signed time window. */
  function DateKey(lib: Lib, operationKey: Bytes, timestamp: string): Bytes {
    lib.hmacSha256(operationKey, lib.utf8(TimeWindow(timestamp)))
  }

  /** Third link: keyed by the second, over the body bytes. */
  function BodyDigest(lib: Lib, dateKey: Bytes, body: Option<Bytes>): Bytes {
    lib.hmacSha256(dateKey, BodyBytes(body))
  }

  /** The value of the `Signature` header. */
  function Signature(lib: Lib, tokenKey: string, verb: string, path: string,
                     timestamp: string, body: Option<Bytes>): string
  {
    lib.b64encode(BodyDigest(lib, DateKey(lib, OperationKey(lib, tokenKey, verb, path), timestamp), body))
  }

  /**
   * Computes the signature the way the client does: one digester per link,
   * each new digester keyed by the previous one's digest.
   */
  method Sign(lib: Lib, tokenKey: string, verb: string, path: string,
              timestamp: string, body: Option<Bytes>) returns (signature: string)
    ensures signature == lib.b64encode(lib.hmacSha256(
              lib.hmacSha256(
                lib.hmacSha256(lib.utf8(tokenKey), lib.utf8(verb + path)),
                lib.utf8(TimeWindow(timestamp))),
              BodyBytes(body)))
    ensures signature == Signature(lib, tokenKey, verb, path, timestamp, body)
  {
    var digester := new Digester(lib.hmacSha256, lib.utf8(tokenKey));
    digester.Update(lib.utf8(verb + path));
    assert digester.absorbed == lib.utf8(verb + path);
    var operationKey := digester.Digest();
    digester := new Digester(lib.hmacSha256, operationKey);
    digester.Update(lib.utf8(TimeWindow(timestamp)));
    assert digester.absorbed == lib.utf8(TimeWindow(timestamp));
    var dateKey := digester.Digest();
    digester := new Digester(lib.hmacSha256, dateKey);
    if body.Some? {
      digester.Update(body.value);
    }
    assert digester.absorbed == BodyBytes(body);
    signature := lib.b64encode(digester.Digest());
  }

  /** Timestamps that agree on their first 13 characters give the same signature. */
  lemma SameWindowSameSignature(lib: Lib, tokenKey: string, verb: string, path: string,
                                t1: string, t2: string, body: Option<Bytes>)
    requires |t1| >= 13 && |t2| >= 13 && t1[..13] == t2[..13]
    ensures Signature(lib, tokenKey, verb, path, t1, body) == Signature(lib, tokenKey, verb, path, t2, body)
  {
    assert t1[..13] == TimeWindow(t1) && t2[..13] == TimeWindow(t2);
  }

  /** A request without a body is signed exactly like one with an empty body. */
  lemma AbsentBodySignsAsEmpty(lib: Lib, tokenKey: string, verb: string, path: string, timestamp: string)
    ensures Signature(lib, tokenKey, verb, path, timestamp, None)
         == Signature(lib, tokenKey, verb, path, timestamp, Some([]))
  {
  }

  /**
   * An idealised library: HMAC never collides (across keys and messages),
   * and base64 and UTF-8 encoding are injective.
   */
  ghost predicate CollisionFree(lib: Lib) {
    (forall k1, m1, k2, m2 :: lib.hmacSha256(k1, m1) == lib.hmacSha256(k2, m2) ==> k1 == k2 && m1 == m2) &&
    (forall d1, d2 :: lib.b64encode(d1) == lib.b64encode(d2) ==> d1 == d2) &&
    (forall s1, s2 :: lib.utf8(s1) == lib.utf8(s2) ==> s1 == s2)
  }

  /**
   * With an ideal library, two signatures agree exactly when the secret, the
   * verb followed by the path, the time window and the body bytes all agree:
   * these are all, and the only, inputs the chain binds.
   */
  lemma SignatureBindsInputs(lib: Lib,
                             key1: string, verb1: string, path1: string, t1: string, body1: Option<Bytes>,
                             key2: string, verb2: string, path2: string, t2: string, body2: Option<Bytes>)
    requires CollisionFree(lib)
    ensures Signature(lib, key1, verb1, path1, t1, body1) == Signature(lib, key2, verb2, path2, t2, body2)
        <==> key1 == key2 && verb1 + path1 == verb2 + path2
             && TimeWindow(t1) == TimeWindow(t2) && BodyBytes(body1) == BodyBytes(body2)
  {
    if Signature(lib, key1, verb1, path1, t1, body1) == Signature(lib, key2, verb2, path2, t2, body2) {
      var op1, op2 := OperationKey(lib, key1, verb1, path1), OperationKey(lib, key2, verb2, path2);
      var date1, date2 := DateKey(lib, op1, t1), DateKey(lib, op2, t2);
      assert BodyDigest(lib, date1, body1) == BodyDigest(lib, date2, body2);
      assert date1 == date2 && BodyBytes(body1) == BodyBytes(body2);
      assert op1 == op2 && lib.utf8(TimeWindow(t1)) == lib.utf8(TimeWindow(t2));
      assert lib.utf8(key1) == lib.utf8(key2) && lib.utf8(verb1 + path1) == lib.utf8(verb2 + path2);
    }
  }
}
