/**
 * The migration driver: the import loops, the delete loop, the final count
 * and the flag logic that decides which of them run.
 */
module Migration {
  import opened Wrappers
  import opened Primitives
  import opened Transport
  import opened Queries
  import Json

  /** The POST that creates a legacy record, named "category - name". */
  function LegacyPost(lib: Lib, r: FlatRecord): Call {
    Call("POST", SavedQueriesPath, Some(lib.dumpsQuery(r.category + " - " + r.name, r.query)))
  }

  /** The POST that creates a new-format record as it is. */
  function NewPost(lib: Lib, q: SavedQuery): Call {
    Call("POST", SavedQueriesPath, Some(lib.dumpsQuery(q.name, q.query)))
  }

  function DeleteCall(lib: Lib, id: Json.Value): Call {
    Call("DELETE", SavedQueriesPath + "/" + IdText(lib, id), None)
  }

  /** The calls the legacy import makes: one POST per record whose name has no separator, in order. */
  function LegacyCalls(lib: Lib, records: seq<FlatRecord>): seq<Call>
    decreases |records|
  {
    if records == [] then []
    else if HasSeparator(records[0].name) then LegacyCalls(lib, records[1..])
    else [LegacyPost(lib, records[0])] + LegacyCalls(lib, records[1..])
  }

  /** The calls the new-format import makes: one POST per record, in order. */
  function NewCalls(lib: Lib, queries: seq<SavedQuery>): seq<Call>
    decreases |queries|
  {
    if queries == [] then [] else [NewPost(lib, queries[0])] + NewCalls(lib, queries[1..])
  }

  /** One DELETE per id, in order. */
  function DeleteCalls(lib: Lib, ids: seq<Json.Value>): seq<Call>
    decreases |ids|
  {
    if ids == [] then [] else [DeleteCall(lib, ids[0])] + DeleteCalls(lib, ids[1..])
  }

  /** The j-th legacy POST is for the j-th record kept by the separator filter. */
  lemma {:induction false} LegacyCallsFollowKept(lib: Lib, records: seq<FlatRecord>)
    ensures |LegacyCalls(lib, records)| == |Kept(records)|
    ensures forall j :: 0 <= j < |Kept(records)| ==> LegacyCalls(lib, records)[j] == LegacyPost(lib, Kept(records)[j])
    decreases |records|
  {
    if records != [] {
      LegacyCallsFollowKept(lib, records[1..]);
    }
  }

  /** The j-th new-format POST is for the j-th record. */
  lemma {:induction false} NewCallsAt(lib: Lib, queries: seq<SavedQuery>)
    ensures |NewCalls(lib, queries)| == |queries|
    ensures forall j :: 0 <= j < |queries| ==> NewCalls(lib, queries)[j] == NewPost(lib, queries[j])
    decreases |queries|
  {
    if queries != [] {
      NewCallsAt(lib, queries[1..]);
    }
  }

  /** The j-th DELETE is for the j-th id. */
  lemma {:induction false} DeleteCallsAt(lib: Lib, ids: seq<Json.Value>)
    ensures |DeleteCalls(lib, ids)| == |ids|
    ensures forall j :: 0 <= j < |ids| ==> DeleteCalls(lib, ids)[j] == DeleteCall(lib, ids[j])
    decreases |ids|
  {
    if ids != [] {
      DeleteCallsAt(lib, ids[1..]);
    }
  }

  /** The position of the first listed item without an `id`, or the length if there is none. */
  function FirstWithoutId(items: seq<Json.Value>): (n: nat)
    ensures n <= |items|
    ensures forall j :: 0 <= j < n ==> Json.Lookup(items[j], "id").Some?
    ensures n < |items| ==> Json.Lookup(items[n], "id").None?
    decreases |items|
  {
    if items == [] || Json.Lookup(items[0], "id").None? then 0
    else 1 + FirstWithoutId(items[1..])
  }

  /** The ids of the listed items, up to the first item that has none. */
  function ListedIds(items: seq<Json.Value>): seq<Json.Value>
    decreases |items|
  {
    if items == [] || Json.Lookup(items[0], "id").None? then []
    else [Json.Lookup(items[0], "id").value] + ListedIds(items[1..])
  }

  /** The listed ids are the `id`s of the items before the first item lacking one. */
  lemma {:induction false} ListedIdsAt(items: seq<Json.Value>)
    ensures |ListedIds(items)| == FirstWithoutId(items)
    ensures forall j :: 0 <= j < |ListedIds(items)| ==> Json.Lookup(items[j], "id") == Some(ListedIds(items)[j])
    decreases |items|
  {
    if items != [] && Json.Lookup(items[0], "id").Some? {
      ListedIdsAt(items[1..]);
    }
  }

  /**
   * What iterating `queries['data']` and reading `query['id']` yields: the ids
   * deleted, and whether the loop ran to its end. A dict or string iterates
   * its keys or characters, on which `['id']` raises at once; other values
   * cannot be iterated at all.
   */
  function DeletePlan(data: Option<Json.Value>): (seq<Json.Value>, bool) {
    match data
    case Some(Array(items)) => (ListedIds(items), FirstWithoutId(items) == |items|)
    case Some(Object(fields)) => ([], |fields| == 0)
    case Some(Str(s)) => ([], |s| == 0)
    case _ => ([], false)
  }

  /** `len(queries['data'])`. */
  function Length(data: Option<Json.Value>): Option<nat> {
    match data
    case Some(Array(items)) => Some(|items|)
    case Some(Object(fields)) => Some(|fields|)
    case Some(Str(s)) => Some(|s|)
    case _ => None
  }

  /** The `data` section of the reply to the listing made as the k-th request. */
  function Listing(c: Client, k: nat): Option<Json.Value> {
    Json.Lookup(c.ReplyTo(k, ListCall), "data")
  }

  /** The calls of `delete_all_saved_queries` when its listing is the k-th request: the listing, then one DELETE per id. */
  function DeleteAllCalls(c: Client, k: nat): seq<Call> {
    [ListCall] + DeleteCalls(c.lib, DeletePlan(Listing(c, k)).0)
  }

  /** The intermediate file `queries-toimport.json`, when it exists. */
  class Disk {
    var importFile: Option<seq<FlatRecord>>

    constructor ()
      ensures importFile == None
    {
      importFile := None;
    }
  }

  /** Transforms a legacy export and saves the records to the intermediate file. */
  method BuildJson(disk: Disk, entries: seq<LegacyEntry>) returns (built: Result<seq<FlatRecord>, nat>)
    modifies disk
    ensures built == Transform(entries)
    ensures disk.importFile == if built.Ok? then Some(built.value) else old(disk.importFile)
  {
    built := Transform(entries);
    if built.Ok? {
      disk.importFile := Some(built.value);
    }
  }

  lemma AppendAssoc<T>(a: seq<T>, b: seq<T>, c: seq<T>)
    ensures a + b + c == a + (b + c)
  {
  }

  /** The legacy import of two batches is the import of the first followed by that of the second. */
  lemma {:induction false} LegacyCallsAppend(lib: Lib, a: seq<FlatRecord>, b: seq<FlatRecord>)
    ensures LegacyCalls(lib, a + b) == LegacyCalls(lib, a) + LegacyCalls(lib, b)
    decreases |a|
  {
    if a == [] {
      assert a + b == b;
    } else {
      assert (a + b)[1..] == a[1..] + b;
      LegacyCallsAppend(lib, a[1..], b);
    }
  }

  lemma LegacyCallsSnoc(lib: Lib, records: seq<FlatRecord>, r: FlatRecord)
    ensures LegacyCalls(lib, records + [r])
         == LegacyCalls(lib, records) + (if HasSeparator(r.name) then [] else [LegacyPost(lib, r)])
  {
    LegacyCallsAppend(lib, records, [r]);
    assert [r][1..] == [];
  }

  lemma {:induction false} NewCallsSnoc(lib: Lib, queries: seq<SavedQuery>, q: SavedQuery)
    ensures NewCalls(lib, queries + [q]) == NewCalls(lib, queries) + [NewPost(lib, q)]
    decreases |queries|
  {
    if queries == [] {
      assert queries + [q] == [q];
    } else {
      assert (queries + [q])[1..] == queries[1..] + [q];
      NewCallsSnoc(lib, queries[1..], q);
    }
  }

  lemma {:induction false} DeleteCallsSnoc(lib: Lib, ids: seq<Json.Value>, id: Json.Value)
    ensures DeleteCalls(lib, ids + [id]) == DeleteCalls(lib, ids) + [DeleteCall(lib, id)]
    decreases |ids|
  {
    if ids == [] {
      assert ids + [id] == [id];
    } else {
      assert (ids + [id])[1..] == ids[1..] + [id];
      DeleteCallsSnoc(lib, ids[1..], id);
    }
  }

  /**
   * Posts every intermediate record whose name has no separator, then removes
   * the file. `found` is false when there is no file to read.
   */
  method LoopOldQueries(client: Client, disk: Disk) returns (found: bool)
    requires client.Valid()
    modifies client, disk
    ensures client.Valid()
    ensures found == old(disk.importFile).Some?
    ensures found ==> client.calls == old(client.calls) + LegacyCalls(client.lib, old(disk.importFile).value)
    ensures !found ==> client.calls == old(client.calls)
    ensures disk.importFile == None
  {
    if disk.importFile.None? {
      return false;
    }
    ghost var start := client.calls;
    var records := disk.importFile.value;
    for i := 0 to |records|
      invariant client.Valid()
      invariant client.calls == old(client.calls) + LegacyCalls(client.lib, records[..i])
    {
      LegacyCallsSnoc(client.lib, records[..i], records[i]);
      assert records[..i + 1] == records[..i] + [records[i]];
      var name := records[i].category + " - " + records[i].name;
      if HasSeparator(records[i].name) {
        continue;
      }
      var body := client.lib.dumpsQuery(name, records[i].query);
      var _ := client.Request("POST", SavedQueriesPath, Some(body));
      AppendAssoc(start, LegacyCalls(client.lib, records[..i]), [LegacyPost(client.lib, records[i])]);
    }
    assert records[..|records|] == records;
    disk.importFile := None;
    found := true;
  }

  /** Posts every new-format record unchanged, in order. */
  method LoopNewQueries(client: Client, queries: seq<SavedQuery>)
    requires client.Valid()
    modifies client
    ensures client.Valid()
    ensures client.calls == old(client.calls) + NewCalls(client.lib, queries)
  {
    ghost var start := client.calls;
    for i := 0 to |queries|
      invariant client.Valid()
      invariant client.calls == old(client.calls) + NewCalls(client.lib, queries[..i])
    {
      NewCallsSnoc(client.lib, queries[..i], queries[i]);
      assert queries[..i + 1] == queries[..i] + [queries[i]];
      var body := client.lib.dumpsQuery(queries[i].name, queries[i].query);
      var _ := client.Request("POST", SavedQueriesPath, Some(body));
      AppendAssoc(start, NewCalls(client.lib, queries[..i]), [NewPost(client.lib, queries[i])]);
    }
    assert queries[..|queries|] == queries;
  }

  /** `for query in items: delete(query['id'])`, stopping where an item has no `id`. */
  method DeleteListed(client: Client, items: seq<Json.Value>) returns (complete: bool)
    requires client.Valid()
    modifies client
    ensures client.Valid()
    ensures complete == (FirstWithoutId(items) == |items|)
    ensures client.calls == old(client.calls) + DeleteCalls(client.lib, ListedIds(items))
  {
    ghost var start := client.calls;
    var ids := ListedIds(items);
    ListedIdsAt(items);
    var i := 0;
    while i < |items|
      invariant 0 <= i <= FirstWithoutId(items)
      invariant client.Valid()
      invariant client.calls == old(client.calls) + DeleteCalls(client.lib, ids[..i])
    {
      var id := Json.Lookup(items[i], "id");
      if id.None? {
        assert ids[..i] == ids;
        return false;
      }
      assert id.value == ids[i];
      ghost var prior := client.calls;
      var _ := client.DeleteSavedQuery(id.value);
      assert client.calls == prior + [DeleteCall(client.lib, ids[i])];
      AppendAssoc(start, DeleteCalls(client.lib, ids[..i]), [DeleteCall(client.lib, ids[i])]);
      DeleteCallsSnoc(client.lib, ids[..i], ids[i]);
      assert ids[..i + 1] == ids[..i] + [ids[i]];
      i := i + 1;
    }
    assert ids[..i] == ids;
    complete := true;
  }

  /**
   * Lists the saved queries and deletes each listed id in turn. `complete` is
   * false when the listing could not be walked to its end; the deletions
   * issued before that point stand.
   */
  method DeleteAllSavedQueries(client: Client) returns (complete: bool)
    requires client.Valid()
    modifies client
    ensures client.Valid()
    ensures complete == DeletePlan(Listing(client, |old(client.calls)|)).1
    ensures client.calls == old(client.calls) + DeleteAllCalls(client, |old(client.calls)|)
  {
    ghost var before := client.calls;
    var reply := client.GetSavedQueries();
    var data := Json.Lookup(reply, "data");
    assert data == Listing(client, |before|);
    complete := DeleteData(client, data);
    AppendAssoc(before, [ListCall], DeleteCalls(client.lib, DeletePlan(data).0));
  }

  /** Walks the `data` of a listing, deleting each id until an item lacks one. */
  method DeleteData(client: Client, data: Option<Json.Value>) returns (complete: bool)
    requires client.Valid()
    modifies client
    ensures client.Valid()
    ensures complete == DeletePlan(data).1
    ensures client.calls == old(client.calls) + DeleteCalls(client.lib, DeletePlan(data).0)
  {
    match data
    case Some(Array(items)) =>
      complete := DeleteListed(client, items);
    case Some(Object(fields)) =>
      complete := |fields| == 0;
      assert DeleteCalls(client.lib, []) == [];
    case Some(Str(s)) =>
      complete := |s| == 0;
      assert DeleteCalls(client.lib, []) == [];
    case _ =>
      complete := false;
      assert DeleteCalls(client.lib, []) == [];
  }

  /** Lists the saved queries and counts them; `None` when the listing has no countable `data`. */
  method CountSavedQueries(client: Client) returns (total: Option<nat>)
    requires client.Valid()
    modifies client
    ensures client.Valid()
    ensures client.calls == old(client.calls) + [ListCall]
    ensures total == Length(Listing(client, |old(client.calls)|))
  {
    var reply := client.GetSavedQueries();
    total := Length(Json.Lookup(reply, "data"));
  }

  /** The three command-line options: `-i [FILE]`, `--new [FILE]` and `--delete`. */
  datatype Flags = Flags(file: Option<string>, newFile: Option<string>, toDelete: bool)

  /** Python truthiness of an optional file name: given and not empty. */
  predicate Truthy(name: Option<string>) {
    name.Some? && name.value != ""
  }

  predicate RunsLegacyImport(flags: Flags) {
    Truthy(flags.file) && !flags.toDelete
  }

  predicate RunsNewImport(flags: Flags) {
    Truthy(flags.newFile) && !flags.toDelete
  }

  predicate RunsDelete(flags: Flags) {
    flags.toDelete
  }

  datatype Failure = UnreadableVersion | MalformedExport(entry: nat) | UnreadableListing

  datatype Outcome = Completed(version: APIVersion, total: nat) | Aborted(failure: Failure)

  /** The calls of the legacy import, when the flags allow it and the export transforms. */
  function LegacyPhase(c: Client, flags: Flags, legacyExport: seq<LegacyEntry>): seq<Call> {
    if RunsLegacyImport(flags) && Transform(legacyExport).Ok? then LegacyCalls(c.lib, Transform(legacyExport).value)
    else []
  }

  /** The calls of the new-format import, when the flags allow it. */
  function NewPhase(c: Client, flags: Flags, newQueries: seq<SavedQuery>): seq<Call> {
    if RunsNewImport(flags) then NewCalls(c.lib, newQueries) else []
  }

  /** The calls of the delete step, when its flag is set, starting as the k-th request. */
  function DeletePhase(c: Client, flags: Flags, k: nat): seq<Call> {
    if RunsDelete(flags) then DeleteAllCalls(c, k) else []
  }

  /**
   * The calls a run makes after `before`, and how it ends: the version, then
   * the imports the flags allow, then the deletions, then the final listing.
   * A failure that Python raises ends the run where it happens.
   */
  function Expected(c: Client, flags: Flags, legacyExport: seq<LegacyEntry>, newQueries: seq<SavedQuery>,
                    before: seq<Call>): (seq<Call>, Outcome)
  {
    var version := ParseVersion(c.ReplyTo(|before|, VersionCall));
    if version.None? then (before + [VersionCall], Aborted(UnreadableVersion))
    else if RunsLegacyImport(flags) && Transform(legacyExport).Err? then
      (before + [VersionCall], Aborted(MalformedExport(Transform(legacyExport).error)))
    else
      AfterImports(c, flags, version.value,
                   before + [VersionCall] + LegacyPhase(c, flags, legacyExport) + NewPhase(c, flags, newQueries))
  }

  /** The rest of a run once the imports have made `calls`: the delete step, then the final listing. */
  function AfterImports(c: Client, flags: Flags, version: APIVersion, calls: seq<Call>): (seq<Call>, Outcome) {
    var afterDelete := calls + DeletePhase(c, flags, |calls|);
    if RunsDelete(flags) && !DeletePlan(Listing(c, |calls|)).1 then (afterDelete, Aborted(UnreadableListing))
    else Finish(c, version, afterDelete)
  }

  /** The final listing, made after `calls`, and the count it reports. */
  function Finish(c: Client, version: APIVersion, calls: seq<Call>): (seq<Call>, Outcome) {
    var total := Length(Listing(c, |calls|));
    (calls + [ListCall], if total.Some? then Completed(version, total.value) else Aborted(UnreadableListing))
  }

  /** Whether a run gets as far as posting the legacy export. */
  predicate ImportsLegacy(c: Client, flags: Flags, legacyExport: seq<LegacyEntry>, before: seq<Call>) {
    ParseVersion(c.ReplyTo(|before|, VersionCall)).Some? && RunsLegacyImport(flags) && Transform(legacyExport).Ok?
  }

  /** Both import steps, each run only when the flags allow it. */
  method RunImports(client: Client, disk: Disk, flags: Flags, legacyExport: seq<LegacyEntry>,
                    newQueries: seq<SavedQuery>) returns (malformed: Option<nat>)
    requires client.Valid()
    modifies client, disk
    ensures client.Valid()
    ensures malformed.Some? <==> RunsLegacyImport(flags) && Transform(legacyExport).Err?
    ensures malformed.Some? ==> malformed.value == Transform(legacyExport).error
    ensures malformed.Some? ==> client.calls == old(client.calls)
    ensures malformed.None? ==> client.calls == old(client.calls) + LegacyPhase(client, flags, legacyExport)
                                                + NewPhase(client, flags, newQueries)
    ensures disk.importFile
         == if RunsLegacyImport(flags) && Transform(legacyExport).Ok? then None else old(disk.importFile)
  {
    if RunsLegacyImport(flags) {
      var built := BuildJson(disk, legacyExport);
      if built.Err? {
        return Some(built.error);
      }
      var _ := LoopOldQueries(client, disk);
    }
    if RunsNewImport(flags) {
      LoopNewQueries(client, newQueries);
    }
    malformed := None;
  }

  /** The body of `main` after the command line and the configuration have been read. */
  method Migrate(client: Client, disk: Disk, flags: Flags, legacyExport: seq<LegacyEntry>, newQueries: seq<SavedQuery>)
    returns (outcome: Outcome)
    requires client.Valid()
    modifies client, disk
    ensures client.Valid()
    ensures (client.calls, outcome) == Expected(client, flags, legacyExport, newQueries, old(client.calls))
    ensures disk.importFile
         == if ImportsLegacy(client, flags, legacyExport, old(client.calls)) then None else old(disk.importFile)
  {
    ghost var before := client.calls;
    var version := client.GetVersion();
    if version.None? {
      return Aborted(UnreadableVersion);
    }
    var malformed := RunImports(client, disk, flags, legacyExport, newQueries);
    if malformed.Some? {
      return Aborted(MalformedExport(malformed.value));
    }
    assert client.calls == before + [VersionCall] + LegacyPhase(client, flags, legacyExport)
                           + NewPhase(client, flags, newQueries);
    outcome := DeleteAndCount(client, flags, version.value);
  }

  /** The delete step, run only when its flag is set. */
  method DeleteStep(client: Client, flags: Flags) returns (complete: bool)
    requires client.Valid()
    modifies client
    ensures client.Valid()
    ensures complete == (!RunsDelete(flags) || DeletePlan(Listing(client, |old(client.calls)|)).1)
    ensures client.calls == old(client.calls) + DeletePhase(client, flags, |old(client.calls)|)
  {
    if RunsDelete(flags) {
      complete := DeleteAllSavedQueries(client);
    } else {
      complete := true;
      assert old(client.calls) + DeletePhase(client, flags, |old(client.calls)|) == client.calls;
    }
  }

  /** The delete step, when its flag is set, then the final count. */
  method DeleteAndCount(client: Client, flags: Flags, version: APIVersion) returns (outcome: Outcome)
    requires client.Valid()
    modifies client
    ensures client.Valid()
    ensures (client.calls, outcome) == AfterImports(client, flags, version, old(client.calls))
  {
    var complete := DeleteStep(client, flags);
    if !complete {
      return Aborted(UnreadableListing);
    }
    var total := CountSavedQueries(client);
    outcome := if total.Some? then Completed(version, total.value) else Aborted(UnreadableListing);
  }

  /** The legacy import posts exactly the records whose name has no separator. */
  lemma LegacyImportPostsExactly(lib: Lib, records: seq<FlatRecord>, call: Call)
    ensures call in LegacyCalls(lib, records)
        <==> exists r :: r in records && !HasSeparator(r.name) && call == LegacyPost(lib, r)
  {
    var kept := Kept(records);
    LegacyCallsFollowKept(lib, records);
    if call in LegacyCalls(lib, records) {
      var j :| 0 <= j < |kept| && LegacyCalls(lib, records)[j] == call;
      KeptMembers(records, kept[j]);
    }
    forall r | r in records && !HasSeparator(r.name)
      ensures LegacyPost(lib, r) in LegacyCalls(lib, records)
    {
      KeptMembers(records, r);
      var j :| 0 <= j < |kept| && kept[j] == r;
      assert LegacyCalls(lib, records)[j] == LegacyPost(lib, r);
    }
  }

  /** The calls among `calls` with the given verb, in order. */
  function WithVerb(calls: seq<Call>, verb: string): seq<Call> {
    if calls == [] then []
    else if calls[0].verb == verb then [calls[0]] + WithVerb(calls[1..], verb)
    else WithVerb(calls[1..], verb)
  }

  lemma {:induction false} WithVerbAppend(a: seq<Call>, b: seq<Call>, verb: string)
    ensures WithVerb(a + b, verb) == WithVerb(a, verb) + WithVerb(b, verb)
    decreases |a|
  {
    if a == [] {
      assert a + b == b;
    } else {
      assert (a + b)[1..] == a[1..] + b;
      WithVerbAppend(a[1..], b, verb);
    }
  }

  lemma WithVerbOfParts(a: seq<Call>, b: seq<Call>, c: seq<Call>, d: seq<Call>, e: seq<Call>, verb: string)
    ensures WithVerb(a + b + c + d + e, verb)
         == WithVerb(a, verb) + WithVerb(b, verb) + WithVerb(c, verb) + WithVerb(d, verb) + WithVerb(e, verb)
  {
    WithVerbAppend(a + b + c + d, e, verb);
    WithVerbAppend(a + b + c, d, verb);
    WithVerbAppend(a + b, c, verb);
    WithVerbAppend(a, b, verb);
  }

  lemma {:induction false} LegacyCallsArePosts(lib: Lib, records: seq<FlatRecord>)
    ensures WithVerb(LegacyCalls(lib, records), "POST") == LegacyCalls(lib, records)
    ensures WithVerb(LegacyCalls(lib, records), "DELETE") == []
    decreases |records|
  {
    if records != [] {
      LegacyCallsArePosts(lib, records[1..]);
      var rest := LegacyCalls(lib, records[1..]);
      if !HasSeparator(records[0].name) {
        assert ([LegacyPost(lib, records[0])] + rest)[1..] == rest;
      }
    }
  }

  lemma {:induction false} NewCallsArePosts(lib: Lib, queries: seq<SavedQuery>)
    ensures WithVerb(NewCalls(lib, queries), "POST") == NewCalls(lib, queries)
    ensures WithVerb(NewCalls(lib, queries), "DELETE") == []
    decreases |queries|
  {
    if queries != [] {
      NewCallsArePosts(lib, queries[1..]);
      assert ([NewPost(lib, queries[0])] + NewCalls(lib, queries[1..]))[1..] == NewCalls(lib, queries[1..]);
    }
  }

  lemma {:induction false} DeleteCallsAreDeletes(lib: Lib, ids: seq<Json.Value>)
    ensures WithVerb(DeleteCalls(lib, ids), "DELETE") == DeleteCalls(lib, ids)
    ensures WithVerb(DeleteCalls(lib, ids), "POST") == []
    decreases |ids|
  {
    if ids != [] {
      DeleteCallsAreDeletes(lib, ids[1..]);
      assert ([DeleteCall(lib, ids[0])] + DeleteCalls(lib, ids[1..]))[1..] == DeleteCalls(lib, ids[1..]);
    }
  }

  /** Sorts the calls of each step by verb. */
  lemma PhaseVerbs(c: Client, flags: Flags, legacyExport: seq<LegacyEntry>, newQueries: seq<SavedQuery>, k: nat)
    ensures WithVerb([VersionCall], "POST") == [] && WithVerb([ListCall], "POST") == []
    ensures WithVerb([VersionCall], "DELETE") == [] && WithVerb([ListCall], "DELETE") == []
    ensures WithVerb(LegacyPhase(c, flags, legacyExport), "POST") == LegacyPhase(c, flags, legacyExport)
    ensures WithVerb(LegacyPhase(c, flags, legacyExport), "DELETE") == []
    ensures WithVerb(NewPhase(c, flags, newQueries), "POST") == NewPhase(c, flags, newQueries)
    ensures WithVerb(NewPhase(c, flags, newQueries), "DELETE") == []
    ensures WithVerb(DeletePhase(c, flags, k), "POST") == []
    ensures flags.toDelete ==> WithVerb(DeletePhase(c, flags, k), "DELETE")
                               == DeleteCalls(c.lib, DeletePlan(Listing(c, k)).0)
    ensures !flags.toDelete ==> DeletePhase(c, flags, k) == []
  {
    if RunsLegacyImport(flags) && Transform(legacyExport).Ok? {
      LegacyCallsArePosts(c.lib, Transform(legacyExport).value);
    }
    NewCallsArePosts(c.lib, newQueries);
    var deletes := DeleteCalls(c.lib, DeletePlan(Listing(c, k)).0);
    DeleteCallsAreDeletes(c.lib, DeletePlan(Listing(c, k)).0);
    WithVerbAppend([ListCall], deletes, "POST");
    WithVerbAppend([ListCall], deletes, "DELETE");
  }

  /** The position at which the delete step's listing is requested. */
  function DeleteStart(c: Client, flags: Flags, legacyExport: seq<LegacyEntry>,
                       newQueries: seq<SavedQuery>, before: seq<Call>): nat
  {
    |before| + 1 + |LegacyPhase(c, flags, legacyExport)| + |NewPhase(c, flags, newQueries)|
  }

  /** The final listing, unless the delete step raised. */
  function Closing(c: Client, flags: Flags, k: nat): seq<Call> {
    if RunsDelete(flags) && !DeletePlan(Listing(c, k)).1 then [] else [ListCall]
  }

  lemma SuffixOfAppend(before: seq<Call>, a: seq<Call>, b: seq<Call>, c: seq<Call>, d: seq<Call>, e: seq<Call>)
    ensures (before + a + b + c + d + e)[|before|..] == a + b + c + d + e
  {
    assert before + a + b + c + d + e == before + (a + b + c + d + e);
  }

  /** A run that gets past the version and the transform, step by step. */
  lemma RunShape(c: Client, flags: Flags, legacyExport: seq<LegacyEntry>,
                 newQueries: seq<SavedQuery>, before: seq<Call>)
    requires ParseVersion(c.ReplyTo(|before|, VersionCall)).Some?
    requires RunsLegacyImport(flags) ==> Transform(legacyExport).Ok?
    ensures var k := DeleteStart(c, flags, legacyExport, newQueries, before);
      Expected(c, flags, legacyExport, newQueries, before).0[|before|..]
      == RunCalls(c, flags, legacyExport, newQueries, k)
  {
    var k := DeleteStart(c, flags, legacyExport, newQueries, before);
    var legacy, newer := LegacyPhase(c, flags, legacyExport), NewPhase(c, flags, newQueries);
    assert |before + [VersionCall] + legacy + newer| == k;
    SuffixOfAppend(before, [VersionCall], legacy, newer, DeletePhase(c, flags, k), Closing(c, flags, k));
  }

  /** The calls a run makes from the version request on, when no step raises before the delete step. */
  function RunCalls(c: Client, flags: Flags, legacyExport: seq<LegacyEntry>, newQueries: seq<SavedQuery>, k: nat): seq<Call> {
    [VersionCall] + LegacyPhase(c, flags, legacyExport) + NewPhase(c, flags, newQueries)
    + DeletePhase(c, flags, k) + Closing(c, flags, k)
  }

  lemma RunCallsPosts(c: Client, flags: Flags, legacyExport: seq<LegacyEntry>, newQueries: seq<SavedQuery>, k: nat)
    ensures WithVerb(RunCalls(c, flags, legacyExport, newQueries, k), "POST")
         == LegacyPhase(c, flags, legacyExport) + NewPhase(c, flags, newQueries)
  {
    var legacy, newer := LegacyPhase(c, flags, legacyExport), NewPhase(c, flags, newQueries);
    var deletes, tail := DeletePhase(c, flags, k), Closing(c, flags, k);
    WithVerbOfParts([VersionCall], legacy, newer, deletes, tail, "POST");
    PhaseVerbs(c, flags, legacyExport, newQueries, k);
    assert WithVerb(tail, "POST") == [];
  }

  lemma RunCallsDeletes(c: Client, flags: Flags, legacyExport: seq<LegacyEntry>, newQueries: seq<SavedQuery>, k: nat)
    ensures WithVerb(RunCalls(c, flags, legacyExport, newQueries, k), "DELETE")
         == if flags.toDelete then DeleteCalls(c.lib, DeletePlan(Listing(c, k)).0) else []
  {
    var legacy, newer := LegacyPhase(c, flags, legacyExport), NewPhase(c, flags, newQueries);
    var deletes, tail := DeletePhase(c, flags, k), Closing(c, flags, k);
    WithVerbOfParts([VersionCall], legacy, newer, deletes, tail, "DELETE");
    PhaseVerbs(c, flags, legacyExport, newQueries, k);
    assert WithVerb(tail, "DELETE") == [];
  }

  /**
   * The flag rule, read off the POSTs a run makes: the legacy import, only
   * when `-i` names a file and `--delete` is absent, followed by the
   * new-format import, only when `--new` names a file and `--delete` is absent.
   */
  lemma PostsFollowFlags(c: Client, flags: Flags, legacyExport: seq<LegacyEntry>,
                         newQueries: seq<SavedQuery>, before: seq<Call>)
    requires ParseVersion(c.ReplyTo(|before|, VersionCall)).Some?
    requires RunsLegacyImport(flags) ==> Transform(legacyExport).Ok?
    ensures WithVerb(Expected(c, flags, legacyExport, newQueries, before).0[|before|..], "POST")
        == (if Truthy(flags.file) && !flags.toDelete then LegacyCalls(c.lib, Transform(legacyExport).value) else [])
         + (if Truthy(flags.newFile) && !flags.toDelete then NewCalls(c.lib, newQueries) else [])
  {
    RunShape(c, flags, legacyExport, newQueries, before);
    RunCallsPosts(c, flags, legacyExport, newQueries, DeleteStart(c, flags, legacyExport, newQueries, before));
  }

  /** The DELETEs a run makes: one per listed id under `--delete`, none otherwise. */
  lemma DeletesFollowFlags(c: Client, flags: Flags, legacyExport: seq<LegacyEntry>,
                           newQueries: seq<SavedQuery>, before: seq<Call>)
    requires ParseVersion(c.ReplyTo(|before|, VersionCall)).Some?
    requires RunsLegacyImport(flags) ==> Transform(legacyExport).Ok?
    ensures WithVerb(Expected(c, flags, legacyExport, newQueries, before).0[|before|..], "DELETE")
        == if flags.toDelete
           then DeleteCalls(c.lib, DeletePlan(Listing(c, DeleteStart(c, flags, legacyExport, newQueries, before))).0)
           else []
  {
    RunShape(c, flags, legacyExport, newQueries, before);
    RunCallsDeletes(c, flags, legacyExport, newQueries, DeleteStart(c, flags, legacyExport, newQueries, before));
  }

  /** Unless a step raises first, a run ends with the listing that counts the saved queries. */
  lemma FinalListingRuns(c: Client, flags: Flags, legacyExport: seq<LegacyEntry>,
                         newQueries: seq<SavedQuery>, before: seq<Call>)
    ensures var (run, outcome) := Expected(c, flags, legacyExport, newQueries, before);
      |run| > |before| && run[|before|] == VersionCall &&
      (outcome.Completed? ==> run[|run| - 1] == ListCall
                              && Length(Listing(c, |run| - 1)) == Some(outcome.total))
  {
    var (run, outcome) := Expected(c, flags, legacyExport, newQueries, before);
    if ParseVersion(c.ReplyTo(|before|, VersionCall)).None? || (RunsLegacyImport(flags) && Transform(legacyExport).Err?) {
      assert run == before + [VersionCall];
    } else {
      var k := DeleteStart(c, flags, legacyExport, newQueries, before);
      var afterImports := before + [VersionCall] + LegacyPhase(c, flags, legacyExport) + NewPhase(c, flags, newQueries);
      assert |afterImports| == k;
      var afterDelete := afterImports + DeletePhase(c, flags, k);
      assert afterDelete[|before|] == VersionCall;
      if RunsDelete(flags) && !DeletePlan(Listing(c, k)).1 {
        assert run == afterDelete && outcome.Aborted?;
      } else {
        assert run == afterDelete + [ListCall];
      }
    }
  }
}
