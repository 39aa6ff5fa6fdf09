/**
 * The query records the toolset reads from its input files, and the
 * transform from a legacy export to flat records.
 */
module Queries {
  import opened Wrappers
  import opened Text

  /** One variant in a legacy entry's `queryList`; only its `query` is used. */
  datatype QueryVariant = QueryVariant(query: string)

  /** A legacy export entry: `{name, category, queryList}`. */
  datatype LegacyEntry = LegacyEntry(name: string, category: string, queryList: seq<QueryVariant>)

  /** A record of the intermediate file: `{name, query, category}`. */
  datatype FlatRecord = FlatRecord(name: string, query: string, category: string)

  /** A record of a new-format file: `{name, query}`. */
  datatype SavedQuery = SavedQuery(name: string, query: string)

  /** Marks the category-header rows of a legacy export. */
  const Separator := "--------------"

  predicate HasSeparator(name: string) {
    Contains(name, Separator)
  }

  /**
   * The list comprehension over `data['queries']`: one record per entry, using
   * the first query variant. An entry with an empty `queryList` raises; the
   * error carries the position of the first such entry.
   */
  function Transform(entries: seq<LegacyEntry>): (r: Result<seq<FlatRecord>, nat>)
    ensures r.Ok? <==> forall i :: 0 <= i < |entries| ==> |entries[i].queryList| > 0
    ensures r.Ok? ==> |r.value| == |entries|
    ensures r.Ok? ==> forall i :: 0 <= i < |entries| ==>
              r.value[i] == FlatRecord(entries[i].name, entries[i].queryList[0].query, entries[i].category)
    ensures r.Err? ==> r.error < |entries| && |entries[r.error].queryList| == 0
    ensures r.Err? ==> forall i :: 0 <= i < r.error ==> |entries[i].queryList| > 0
  {
    if entries == [] then Ok([])
    else
      var e := entries[0];
      if |e.queryList| == 0 then Err(0)
      else match Transform(entries[1..])
        case Ok(rest) => Ok([FlatRecord(e.name, e.queryList[0].query, e.category)] + rest)
        case Err(i) => Err(i + 1)
  }

  /** The records the legacy import loop posts: those whose name has no separator, in order. */
  function Kept(records: seq<FlatRecord>): seq<FlatRecord> {
    if records == [] then []
    else if HasSeparator(records[0].name) then Kept(records[1..])
    else [records[0]] + Kept(records[1..])
  }

  /** Filtering distributes over concatenation, so the kept records keep their relative order. */
  lemma {:induction false} KeptAppend(a: seq<FlatRecord>, b: seq<FlatRecord>)
    ensures Kept(a + b) == Kept(a) + Kept(b)
    decreases |a|
  {
    if a == [] {
      assert a + b == b;
    } else {
      assert (a + b)[1..] == a[1..] + b;
      KeptAppend(a[1..], b);
    }
  }

  /** A record is kept exactly when it is in the input and its name has no separator. */
  lemma {:induction false} KeptMembers(records: seq<FlatRecord>, r: FlatRecord)
    ensures r in Kept(records) <==> r in records && !HasSeparator(r.name)
    decreases |records|
  {
    if records != [] {
      KeptMembers(records[1..], r);
      assert records == [records[0]] + records[1..];
    }
  }

  /** With no separator rows, every record is posted. */
  lemma {:induction false} KeptAll(records: seq<FlatRecord>)
    requires forall i :: 0 <= i < |records| ==> !HasSeparator(records[i].name)
    ensures Kept(records) == records
    decreases |records|
  {
    if records != [] {
      KeptAll(records[1..]);
    }
  }

  /**
   * A separator row survives the transform (it is in the intermediate file at
   * its own position) but is not among the records the import posts.
   */
  lemma SeparatorRowInFileNotPosted(entries: seq<LegacyEntry>, i: nat)
    requires Transform(entries).Ok?
    requires i < |entries| && HasSeparator(entries[i].name)
    ensures Transform(entries).value[i].name == entries[i].name
    ensures Transform(entries).value[i] !in Kept(Transform(entries).value)
  {
    KeptMembers(Transform(entries).value, Transform(entries).value[i]);
  }
}
