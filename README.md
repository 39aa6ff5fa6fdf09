# Saved-query migration toolset, modelled in Dafny

The toolset moves custom Cypher queries from a BloodHound "Legacy" export
(`customqueries.json`) into BloodHound Community Edition. It can also
import records that are already in the new format, and it can delete every
saved query on the server. It talks to the server's REST API through a
small client. That client signs each request with a chain of three
HMAC-SHA-256 links (RFC 2104 over FIPS 180-4) and base64-encodes the last
digest into the `Signature` header.

The model covers these parts:

- **`Text`**: Python's decimal rendering of integers, and the substring test
  `sub in s`.
- **`Json`**: decoded JSON values and key lookup `v[key]`. A lookup that
  would raise in Python is `None` here.
- **`Primitives`**: the library functions the program calls but does not
  define: HMAC-SHA-256, base64, UTF-8 encoding, `json.dumps` of a query
  record, and `str()` of a list or dict. They are fields of a `Lib` value, so
  every proved property holds for any implementation of them.
- **`Signing`**: the HMAC digester as a class, the three signing links,
  `Sign`, the signed time window `timestamp[:13]`, and what the signature
  binds.
- **`Transport`**: the `Client`, with its URL formatting, the signed request
  and the API calls. The client keeps two logs. `calls` records each
  (verb, path, body). `sent` records each request put on the wire. `Valid()`
  states that each sent request is the signed form of its call, stamped with
  the clock reading for that request.
- **`Queries`**: the legacy-to-flat record transform (`build_json`'s list
  comprehension) and the separator-row filter.
- **`Migration`**:
  - the legacy import loop, the new-format import loop, the delete-all loop,
    and the final count;
  - the intermediate file `queries-toimport.json`, modelled as a `Disk`
    object;
  - the body of `main`: which steps the flags `-i`, `--new` and `--delete`
    trigger, in which order, and where an exception Python would raise ends
    the run.

The environment is a set of parameters:

- The clock is a function from the request index to the timestamp string.
- The server is a function from the request index and the signed request to
  the decoded reply.

`Migration.Migrate` is proved to make exactly the calls, and return exactly
the outcome, given by the specification function `Migration.Expected`.
Lemmas then read the flag rule, the deletions and the final count off
`Expected`.

## Model

| member | source | states |
|---|---|---|
| Text.NatDecimal | bh-toolset.py:60 | the rendering of a natural number is non-empty and all digits; it starts with `0` only for zero; it is one digit exactly below ten |
| Text.IntDecimal | bh-toolset.py:60 | an integer renders with a leading `-` exactly when it is negative |
| Text.NatDecimalRoundTrip | bh-toolset.py:60 | parsing the decimal rendering of a natural number gives that number back |
| Text.IntDecimalRoundTrip | bh-toolset.py:60 | parsing the decimal rendering of any integer, sign included, gives it back, so the rendering is injective |
| Text.ContainsIffOccurs | bh-toolset.py:131 | `sub in s` holds exactly when `sub` occurs in `s` at some position |
| Signing.Digester.constructor | bh-toolset.py:64 | a new digester has the given MAC and key and has absorbed nothing |
| Signing.Digester.Update | bh-toolset.py:67 | `update` appends the message to everything absorbed so far |
| Signing.TimeWindow | bh-toolset.py:73-74 | the signed window is a prefix of the timestamp, of length 13, or the whole timestamp when it is shorter |
| Signing.Sign | bh-toolset.py:63-81 | the signature is base64 of HMAC(HMAC(HMAC(token key, verb+path), timestamp[:13]), body bytes), and the body link is empty when there is no body |
| Signing.SameWindowSameSignature | bh-toolset.py:73-74 | two timestamps that agree on their first 13 characters give the same signature |
| Signing.AbsentBodySignsAsEmpty | bh-toolset.py:80-81 | a request without a body is signed exactly as one with an empty body |
| Signing.SignatureBindsInputs | bh-toolset.py:64-81 | with collision-free primitives, two signatures are equal exactly when the secret, verb+path, the time window and the body bytes are all equal |
| Transport.ParseVersionFollowsPaths | bh-toolset.py:107-110 | the version is read from `data.API.current_version` and `data.server_version`; it fails exactly when one of them is missing |
| Transport.VersionExample | bh-toolset.py:110 | a well-formed version reply yields the API version and the server version |
| Transport.MissingVersionRejected | bh-toolset.py:110 | a reply without `current_version` is rejected rather than given a default |
| Transport.Client.constructor | bh-toolset.py:49-53 | the client holds the scheme, host, port and credentials it was given, and starts with empty logs |
| Transport.FormatUrlSplits | bh-toolset.py:55-60 | the URL is `scheme://host:port/` followed by the path with one leading slash removed, if it has one |
| Transport.FormatUrlDropsOneSlash | bh-toolset.py:57-58 | `/x` and `x` format to the same URL |
| Transport.FormatUrlKeepsSecondSlash | bh-toolset.py:57-58 | only one slash is removed: `//x` keeps its second slash |
| Transport.FormatUrlIdentifies | bh-toolset.py:55-60 | two paths format to the same URL exactly when they agree once one leading slash is removed |
| Transport.SignedPathIsUnstripped | bh-toolset.py:67 | the signature covers the path as passed: `/x` and `x` reach the same URL under different signatures, given collision-free primitives |
| Transport.RequestDateIsSignedTimestamp | bh-toolset.py:73-90 | `RequestDate` carries the full timestamp, while requests in the same hour share a signature |
| Transport.BodilessRequest | bh-toolset.py:80-94 | a bodiless request carries no body, is signed as if the body were empty, and is authorised as `bhesignature <token id>` |
| Transport.Client.Request | bh-toolset.py:62-99 | a request logs its call, puts its signed form, stamped with the current time, on the wire, keeps every earlier request intact, and returns the server's reply |
| Transport.Client.GetSavedQueries | bh-toolset.py:101-102 | lists the saved queries: one GET of `/api/v2/saved-queries` |
| Transport.Client.DeleteSavedQuery | bh-toolset.py:104-105 | one DELETE of `/api/v2/saved-queries/<str(id)>` |
| Transport.Client.GetVersion | bh-toolset.py:107-110 | one GET of `/api/version`, whose reply is parsed as above |
| Queries.Transform | bh-toolset.py:122 | it succeeds exactly when every entry has a query variant; the records correspond one-to-one and in order to the entries, each built from the first variant; on failure it names the first entry with no variant |
| Queries.KeptAppend | bh-toolset.py:127-132 | the separator filter distributes over concatenation, so kept records stay in order |
| Queries.KeptMembers | bh-toolset.py:131-132 | a record is kept exactly when it is in the input and its name does not contain the separator |
| Queries.KeptAll | bh-toolset.py:131-132 | with no separator rows, every record is kept |
| Queries.SeparatorRowInFileNotPosted | bh-toolset.py:122-132 | a separator row stays in the intermediate file at its own position but is never posted |
| Migration.LegacyCallsFollowKept | bh-toolset.py:127-137 | the j-th legacy POST is for the j-th kept record, and there is one POST per kept record |
| Migration.NewCallsAt | bh-toolset.py:144-152 | the j-th new-format POST carries the j-th record unchanged, and there is one per record |
| Migration.DeleteCallsAt | bh-toolset.py:167-169 | the j-th DELETE is for the j-th id, and there is one per id |
| Migration.FirstWithoutId | bh-toolset.py:167-168 | the delete loop reaches the first listed item without an `id`, and every item before it has one |
| Migration.ListedIdsAt | bh-toolset.py:167-168 | the ids deleted are exactly the `id`s of the items before the first item that lacks one |
| Migration.LegacyCallsAppend | bh-toolset.py:127-137 | importing two batches is importing the first, then the second |
| Migration.LegacyCallsSnoc | bh-toolset.py:127-137 | one more record adds one POST, or none for a separator row |
| Migration.NewCallsSnoc | bh-toolset.py:144-152 | one more new-format record adds one POST |
| Migration.DeleteCallsSnoc | bh-toolset.py:167-169 | one more id adds one DELETE |
| Migration.BuildJson | bh-toolset.py:120-123 | the transform's result is written to the intermediate file; a malformed export leaves the file untouched |
| Migration.LoopOldQueries | bh-toolset.py:125-140 | posts, in order, every record from the file whose name has no separator, then removes the file |
| Migration.LoopNewQueries | bh-toolset.py:142-154 | posts every new-format record unchanged, in order |
| Migration.DeleteListed | bh-toolset.py:167-169 | issues one DELETE per listed id, in order, and reports whether it got past every item |
| Migration.DeleteData | bh-toolset.py:167-169 | iterates the listing's `data` as Python would: a list is walked; a non-empty dict or string raises at once; an empty one does nothing; anything else raises |
| Migration.DeleteAllSavedQueries | bh-toolset.py:163-169 | one listing, then the DELETEs its `data` yields |
| Migration.CountSavedQueries | bh-toolset.py:156-160 | one listing, and `len(data)` of its reply, or nothing when `data` has no length |
| Migration.RunImports | bh-toolset.py:191-197 | the legacy import runs only when `-i` names a file and `--delete` is absent, then the new-format import under the same rule for `--new`; a malformed export stops before any POST |
| Migration.Migrate | bh-toolset.py:188-203 | a run makes exactly the calls and ends exactly as `Expected` says: version, imports, deletions, final count, each failure ending the run where Python raises |
| Migration.DeleteStep | bh-toolset.py:199-201 | the delete step runs exactly when `--delete` is given |
| Migration.DeleteAndCount | bh-toolset.py:199-203 | after the imports: the delete step, then the final count unless the delete step raised |
| Migration.LegacyImportPostsExactly | bh-toolset.py:129-137 | the legacy import posts a record exactly when it is in the file, its name has no separator, and it is named "category - name" |
| Migration.WithVerbAppend | bh-toolset.py:191-203 | selecting the calls of one verb distributes over concatenation |
| Migration.LegacyCallsArePosts | bh-toolset.py:137 | the legacy import issues only POSTs |
| Migration.NewCallsArePosts | bh-toolset.py:152 | the new-format import issues only POSTs |
| Migration.DeleteCallsAreDeletes | bh-toolset.py:169 | the delete loop issues only DELETEs |
| Migration.PhaseVerbs | bh-toolset.py:191-203 | the version request and the listings are neither POST nor DELETE; the import steps only POST; the delete step only DELETEs, and is empty without `--delete` |
| Migration.RunShape | bh-toolset.py:188-203 | when no step raises before the delete step, a run is: the version request, the legacy import, the new import, the delete step, then the final listing unless the delete step raised |
| Migration.RunCallsPosts | bh-toolset.py:191-197 | the POSTs of such a run are the legacy import's, then the new import's |
| Migration.RunCallsDeletes | bh-toolset.py:199-201 | the DELETEs of such a run are the delete step's, and there are none without `--delete` |
| Migration.PostsFollowFlags | bh-toolset.py:191-197 | the POSTs of a run are the legacy records exactly when `-i` names a file and `--delete` is absent, followed by the new records exactly when `--new` names a file and `--delete` is absent |
| Migration.DeletesFollowFlags | bh-toolset.py:199-201 | a run issues one DELETE per listed id under `--delete`, and none otherwise |
| Migration.FinalListingRuns | bh-toolset.py:188-203 | every run starts with the version request; a completed run ends with the listing, and the total it reports is `len(data)` of that listing |

## Left out

- Cryptography and encodings: HMAC-SHA-256, base64, UTF-8 and `json.dumps` are opaque fields of `Lib`. The only assumptions made about them are the collision-freedom premises stated in the lemmas that need them.
- Network and session: `requests.Session().send` is replaced by the `server` function. A reply is assumed to decode as JSON, so the failure of `response.json()` on a non-JSON reply is not modelled. HTTP status codes are not inspected, as the toolset itself does not inspect them.
- The clock: `datetime.now().astimezone().isoformat("T")` is the `clock` parameter, read once per request.
- File I/O: `load_json` and `save_json` of the intermediate file are a `Disk` field that holds the records. The file is assumed to read back as it was written. `os.remove` clears that field. The export files given with `-i` and `--new` are passed in already decoded.
- Input-file shapes: a legacy entry is typed with a name, a category and a list of variants, and a new-format record with a name and a query. Missing keys and wrongly typed fields in those files, where Python raises `KeyError` or `TypeError`, are not modelled. The empty `queryList` is modelled.
- JSON floats: numbers are integers, so `str()` of a float id is not modelled. `str()` of a list or dict id is the opaque `Lib.strOf`.
- `print`, `time.sleep(0.5)`, the banner (`utils/banner.py`) and `curlify` have no effect on the requests made and are left out.
- Command line and configuration: `argparse`, `load_dotenv` and `int(os.getenv("BHE_PORT"))` are replaced by the `Flags` value and the client's constructor arguments. The usage exit when no argument is given (lines 181-183) is not modelled.
- Concurrency: none in the source, so none is modelled.
