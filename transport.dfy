/**
 * The API client: it knows where the server is and whose token to sign with,
 * formats absolute URLs, signs every request and sends it.
 *
 * What lies outside the program is fixed when the client is built: `lib` (the
 * crypto and encoding library), `clock` (the local ISO-8601 time read when the
 * k-th request is made) and `server` (the decoded reply to the k-th request).
 */
module Transport {
  import opened Wrappers
  import opened Text
  import opened Primitives
  import opened Signing
  import Json

  datatype Credentials = Credentials(tokenId: string, tokenKey: string)

  /** Both fields are whatever JSON values the server put there; nothing checks their type. */
  datatype APIVersion = APIVersion(apiVersion: Json.Value, serverVersion: Json.Value)

  datatype Headers = Headers(
    userAgent: string,
    authorization: string,
    requestDate: string,
    signature: string,
    contentType: string)

  /** A request as it goes on the wire. */
  datatype HttpRequest = HttpRequest(verb: string, url: string, headers: Headers, body: Option<Bytes>)

  /** The arguments of one call to the client's request operation. */
  datatype Call = Call(verb: string, uri: string, body: Option<Bytes>)

  const UserAgent := "bhe-python-sdk 0001"
  const ContentType := "application/json"
  const AuthorizationScheme := "bhesignature "
  const VersionPath := "/api/version"
  const SavedQueriesPath := "/api/v2/saved-queries"

  const VersionCall := Call("GET", VersionPath, None)
  const ListCall := Call("GET", SavedQueriesPath, None)

  predicate StartsWithSlash(s: string) {
    |s| > 0 && s[0] == '/'
  }

  /** `str(v)` for a decoded JSON value, as an f-string renders it. */
  function IdText(lib: Lib, v: Json.Value): string {
    match v
    case Str(s) => s
    case Number(n) => IntDecimal(n)
    case Bool(b) => if b then "True" else "False"
    case Null => "None"
    case _ => lib.strOf(v)
  }

  /** Reads the version pair out of the reply to `GET /api/version`: `None` where Python raises. */
  function ParseVersion(payload: Json.Value): Option<APIVersion> {
    var data := Json.Lookup(payload, "data");
    if data.None? then None
    else
      var api := Json.Lookup(data.value, "API");
      if api.None? then None
      else
        var current := Json.Lookup(api.value, "current_version");
        var server := Json.Lookup(data.value, "server_version");
        if current.None? || server.None? then None
        else Some(APIVersion(current.value, server.value))
  }

  /**
   * The version is read from `data.API.current_version` and
   * `data.server_version`, and parsing fails exactly when either is missing.
   */
  lemma ParseVersionFollowsPaths(payload: Json.Value)
    ensures ParseVersion(payload).Some?
        <==> Json.At(payload, ["data", "API", "current_version"]).Some?
             && Json.At(payload, ["data", "server_version"]).Some?
    ensures ParseVersion(payload).Some? ==>
              ParseVersion(payload).value
              == APIVersion(Json.At(payload, ["data", "API", "current_version"]).value,
                            Json.At(payload, ["data", "server_version"]).value)
  {
    assert ["data", "API", "current_version"][1..] == ["API", "current_version"];
    assert ["API", "current_version"][1..] == ["current_version"];
    assert ["data", "server_version"][1..] == ["server_version"];
  }

  class Client {
    const scheme: string
    const host: string
    const port: int
    const credentials: Credentials
    const lib: Lib
    const clock: nat -> string
    const server: (nat, HttpRequest) -> Json.Value

    /** Every call made so far, in order. */
    ghost var calls: seq<Call>
    /** Every request put on the wire so far, in order. */
    var sent: seq<HttpRequest>

    /** Each request sent is the signed form of its call, stamped with the time it was made. */
    ghost predicate Valid()
      reads this
    {
      |calls| == |sent| &&
      forall k {:trigger SignedRequest(calls[k], clock(k))} :: 0 <= k < |sent| ==> sent[k] == SignedRequest(calls[k], clock(k))
    }

    constructor (scheme: string, host: string, port: int, credentials: Credentials,
                 lib: Lib, clock: nat -> string, server: (nat, HttpRequest) -> Json.Value)
      ensures this.scheme == scheme && this.host == host && this.port == port
      ensures this.credentials == credentials
      ensures this.lib == lib && this.clock == clock && this.server == server
      ensures calls == [] && sent == []
      ensures Valid()
    {
      this.scheme := scheme;
      this.host := host;
      this.port := port;
      this.credentials := credentials;
      this.lib := lib;
      this.clock := clock;
      this.server := server;
      calls := [];
      sent := [];
    }

    /** `scheme://host:port/`, the part of every URL that does not depend on the path. */
    function Origin(): string {
      scheme + "://" + host + ":" + IntDecimal(port) + "/"
    }

    /** The absolute URL for `uri`: the origin, then `uri` with at most one leading `/` removed. */
    function FormatUrl(uri: string): string {
      Origin() + if StartsWithSlash(uri) then uri[1..] else uri
    }

    /** The request the client puts on the wire for `call` made at `timestamp`. */
    function SignedRequest(call: Call, timestamp: string): HttpRequest {
      HttpRequest(
        call.verb,
        FormatUrl(call.uri),
        Headers(UserAgent, AuthorizationScheme + credentials.tokenId, timestamp,
                Signature(lib, credentials.tokenKey, call.verb, call.uri, timestamp, call.body),
                ContentType),
        call.body)
    }

    /** The server's reply when `call` is the k-th request. */
    function ReplyTo(k: nat, call: Call): Json.Value {
      server(k, SignedRequest(call, clock(k)))
    }

    /** Signs `verb uri body` with the current time, sends it and returns the decoded reply. */
    method Request(verb: string, uri: string, body: Option<Bytes>) returns (reply: Json.Value)
      requires Valid()
      modifies this
      ensures Valid()
      ensures calls == old(calls) + [Call(verb, uri, body)]
      ensures sent == old(sent) + [SignedRequest(Call(verb, uri, body), clock(|old(sent)|))]
      ensures reply == ReplyTo(|old(calls)|, Call(verb, uri, body))
    {
      var timestamp := clock(|sent|);
      var signature := Sign(lib, credentials.tokenKey, verb, uri, timestamp, body);
      var request := HttpRequest(
        verb,
        FormatUrl(uri),
        Headers(UserAgent, AuthorizationScheme + credentials.tokenId, timestamp, signature, ContentType),
        body);
      assert request == SignedRequest(Call(verb, uri, body), timestamp);
      reply := server(|sent|, request);
      sent := sent + [request];
      calls := calls + [Call(verb, uri, body)];
    }

    method GetSavedQueries() returns (reply: Json.Value)
      requires Valid()
      modifies this
      ensures Valid()
      ensures calls == old(calls) + [ListCall]
      ensures reply == ReplyTo(|old(calls)|, ListCall)
    {
      reply := Request("GET", SavedQueriesPath, None);
    }

    method DeleteSavedQuery(id: Json.Value) returns (reply: Json.Value)
      requires Valid()
      modifies this
      ensures Valid()
      ensures calls == old(calls) + [Call("DELETE", SavedQueriesPath + "/" + IdText(lib, id), None)]
    {
      reply := Request("DELETE", SavedQueriesPath + "/" + IdText(lib, id), None);
    }

    /** Asks for the server's version; `None` when the reply lacks either field. */
    method GetVersion() returns (version: Option<APIVersion>)
      requires Valid()
      modifies this
      ensures Valid()
      ensures calls == old(calls) + [VersionCall]
      ensures version == ParseVersion(ReplyTo(|old(calls)|, VersionCall))
    {
      var reply := Request("GET", VersionPath, None);
      version := ParseVersion(reply);
    }
  }

  /** The URL is the origin followed by the path with at most one leading slash removed. */
  lemma FormatUrlSplits(c: Client, uri: string)
    ensures c.Origin() <= c.FormatUrl(uri)
    ensures StartsWithSlash(uri) ==> "/" + c.FormatUrl(uri)[|c.Origin()|..] == uri
    ensures !StartsWithSlash(uri) ==> c.FormatUrl(uri)[|c.Origin()|..] == uri
  {
    var path := if StartsWithSlash(uri) then uri[1..] else uri;
    assert StartsWithSlash(uri) ==> "/" + path == uri;
    assert c.FormatUrl(uri)[|c.Origin()|..] == path;
  }

  /** A path with and without its one leading slash gives the same URL. */
  lemma FormatUrlDropsOneSlash(c: Client, uri: string)
    requires !StartsWithSlash(uri)
    ensures c.FormatUrl("/" + uri) == c.FormatUrl(uri)
  {
    assert ("/" + uri)[1..] == uri;
  }

  /** Only one slash is removed: `//x` keeps its second slash. */
  lemma FormatUrlKeepsSecondSlash(c: Client, rest: string)
    ensures c.FormatUrl("//" + rest) == c.Origin() + "/" + rest
  {
    assert ("//" + rest)[1..] == "/" + rest;
  }

  /** Two paths give the same URL exactly when they agree once one leading slash is removed. */
  lemma FormatUrlIdentifies(c: Client, u1: string, u2: string)
    ensures c.FormatUrl(u1) == c.FormatUrl(u2)
        <==> (if StartsWithSlash(u1) then u1[1..] else u1) == (if StartsWithSlash(u2) then u2[1..] else u2)
  {
    var o := |c.Origin()|;
    var p1 := if StartsWithSlash(u1) then u1[1..] else u1;
    var p2 := if StartsWithSlash(u2) then u2[1..] else u2;
    assert c.FormatUrl(u1)[o..] == p1;
    assert c.FormatUrl(u2)[o..] == p2;
  }

  /**
   * The signature covers the path as passed, leading slash included, not the
   * stripped path in the URL: with an ideal library `/x` and `x` reach the
   * same URL under different signatures.
   */
  lemma SignedPathIsUnstripped(c: Client, verb: string, uri: string, body: Option<Bytes>, timestamp: string)
    requires CollisionFree(c.lib)
    requires !StartsWithSlash(uri)
    ensures c.SignedRequest(Call(verb, "/" + uri, body), timestamp).url
         == c.SignedRequest(Call(verb, uri, body), timestamp).url
    ensures c.SignedRequest(Call(verb, "/" + uri, body), timestamp).headers.signature
         != c.SignedRequest(Call(verb, uri, body), timestamp).headers.signature
  {
    FormatUrlDropsOneSlash(c, uri);
    SignatureBindsInputs(c.lib, c.credentials.tokenKey, verb, "/" + uri, timestamp, body,
                         c.credentials.tokenKey, verb, uri, timestamp, body);
    assert |verb + ("/" + uri)| != |verb + uri|;
  }

  /**
   * `RequestDate` carries the full timestamp while only its first 13
   * characters are signed: requests made in the same hour share a signature,
   * and their `RequestDate` headers differ exactly when the timestamps do.
   */
  lemma RequestDateIsSignedTimestamp(c: Client, call: Call, t1: string, t2: string)
    requires |t1| >= 13 && |t2| >= 13 && t1[..13] == t2[..13]
    ensures c.SignedRequest(call, t1).headers.signature == c.SignedRequest(call, t2).headers.signature
    ensures c.SignedRequest(call, t1).headers.requestDate == c.SignedRequest(call, t2).headers.requestDate
        <==> t1 == t2
  {
    SameWindowSameSignature(c.lib, c.credentials.tokenKey, call.verb, call.uri, t1, t2, call.body);
  }

  /** A bodiless request is signed as if its body were empty and carries no body. */
  lemma BodilessRequest(c: Client, verb: string, uri: string, timestamp: string)
    ensures c.SignedRequest(Call(verb, uri, None), timestamp).headers.signature
         == c.SignedRequest(Call(verb, uri, Some([])), timestamp).headers.signature
    ensures c.SignedRequest(Call(verb, uri, None), timestamp).body == None
    ensures c.SignedRequest(Call(verb, uri, None), timestamp).headers.authorization
         == "bhesignature " + c.credentials.tokenId
  {
    AbsentBodySignsAsEmpty(c.lib, c.credentials.tokenKey, verb, uri, timestamp);
  }

  /** The reply from the version example: `{"data": {"API": {"current_version": "v1"}, "server_version": "v9.9"}}`. */
  lemma VersionExample()
    ensures ParseVersion(Json.Object(map[
              "data" := Json.Object(map[
                "API" := Json.Object(map["current_version" := Json.Str("v1")]),
                "server_version" := Json.Str("v9.9")])]))
         == Some(APIVersion(Json.Str("v1"), Json.Str("v9.9")))
  {
  }

  /** A reply without `current_version` is rejected rather than defaulted. */
  lemma MissingVersionRejected(server: Json.Value)
    ensures ParseVersion(Json.Object(map[
              "data" := Json.Object(map["API" := Json.Object(map[]), "server_version" := server])]))
         == None
  {
  }
}
