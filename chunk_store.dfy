/** The bookkeeping that both document stores (the Chroma-backed `VectorDBService` and
    the LangChain-backed `LangChainVectorDBService`) perform on the collection themselves:
    the metadata stamped on each chunk, the catalogue `list_documents` builds, the
    two-step `delete_document`, and the `document_id` filter of `search`. The collection is
    a sequence of records in insertion order. */
module ChunkStore {
  import opened Common

  /** A metadata value as the stores write it: strings (filename, dates, ids) and integers
      (file size, chunk counters). */
  datatype MetaValue = Text(s: string) | Number(n: int)

  type Metadata = map<string, MetaValue>

  /** One row of the collection. */
  datatype Record = Record(id: string, embedding: Vector, text: string, metadata: Metadata)

  /** One row of a `search` result: chunk text, its metadata, and the store's distance. */
  datatype SearchHit = SearchHit(text: string, metadata: Metadata, distance: real)

  const DocumentIdKey: string := "document_id"
  const ChunkIndexKey: string := "chunk_index"
  const TotalChunksKey: string := "total_chunks"
  const FilenameKey: string := "filename"
  const UploadDateKey: string := "upload_date"
  const FileSizeKey: string := "file_size"

  /** Python truthiness of a metadata value. */
  predicate Truthy(v: MetaValue) {
    match v
    case Text(s) => s != ""
    case Number(n) => n != 0
  }

  /** `m.get(key)`. */
  function Lookup(m: Metadata, key: string): (r: Option<MetaValue>)
    ensures r.Some? <==> key in m
    ensures r.Some? ==> r.value == m[key]
  {
    if key in m then Some(m[key]) else None
  }

  /** `m.get(key, default)`. */
  function GetOr(m: Metadata, key: string, default: MetaValue): (r: MetaValue)
    ensures key in m ==> r == m[key]
    ensures key !in m ==> r == default
  {
    if key in m then m[key] else default
  }

  // ---------------------------------------------------------------------------
  // Chunk ids and chunk metadata (add_document)
  // ---------------------------------------------------------------------------

  /** The id `f"{document_id}_chunk_{i}"`. */
  function ChunkId(documentId: string, i: nat): string {
    documentId + "_chunk_" + NatToString(i)
  }

  /** Chunk ids never collide: the part after the last `_` is the decimal index, which
      has no `_`, so both the document id and the index can be read back. */
  lemma ChunkIdInjective(d1: string, i1: nat, d2: string, i2: nat)
    requires ChunkId(d1, i1) == ChunkId(d2, i2)
    ensures d1 == d2 && i1 == i2
  {
    var s1, s2 := NatToString(i1), NatToString(i2);
    var x := ChunkId(d1, i1);
    var p1, p2 := d1 + "_chunk_", d2 + "_chunk_";
    assert x == p1 + s1 == p2 + s2;
    DigitSuffixLength(p1, s1, p2, s2);
    assert s1 == x[|x| - |s1|..] == s2;
    assert p1 == x[..|x| - |s1|] == p2;
    assert d1 == p1[..|d1|] && d2 == p2[..|d2|];
    NatToStringInjective(i1, i2);
  }

  /** Two ways of writing one string as a prefix ending in `_` followed by digits agree
      on the length of the digits. */
  lemma DigitSuffixLength(p1: string, s1: string, p2: string, s2: string)
    requires |p1| > 0 && p1[|p1| - 1] == '_' && |p2| > 0 && p2[|p2| - 1] == '_'
    requires AllDigits(s1) && AllDigits(s2)
    requires p1 + s1 == p2 + s2
    ensures |s1| == |s2|
  {
    var x := p1 + s1;
    assert forall j :: |p1| <= j < |x| ==> x[j] == s1[j - |p1|];
    assert forall j :: |p2| <= j < |x| ==> x[j] == s2[j - |p2|];
    assert x[|p1| - 1] == '_' && x[|p2| - 1] == '_';
    assert |p1| - 1 < |p2| && |p2| - 1 < |p1|;
  }

  /** The metadata of chunk i of n: the caller's metadata with `document_id`,
      `chunk_index` and `total_chunks` written over it. */
  function ChunkMetadata(metadata: Metadata, documentId: string, i: nat, n: nat): (m: Metadata)
    ensures m.Keys == metadata.Keys + {DocumentIdKey, ChunkIndexKey, TotalChunksKey}
    ensures m[DocumentIdKey] == Text(documentId)
    ensures m[ChunkIndexKey] == Number(i) && m[TotalChunksKey] == Number(n)
    ensures forall k :: k in metadata && k !in {DocumentIdKey, ChunkIndexKey, TotalChunksKey} ==> m[k] == metadata[k]
  {
    metadata[DocumentIdKey := Text(documentId)][ChunkIndexKey := Number(i)][TotalChunksKey := Number(n)]
  }

  /** Chroma's `add`: an id already in the collection is skipped, new rows are appended
      in batch order. */
  function AddRecords(records: seq<Record>, batch: seq<Record>): seq<Record>
    decreases |batch|
  {
    if batch == [] then records
    else if HasId(records, batch[0].id) then AddRecords(records, batch[1..])
    else AddRecords(records + [batch[0]], batch[1..])
  }

  predicate HasId(records: seq<Record>, id: string) {
    exists i :: 0 <= i < |records| && records[i].id == id
  }

  /** Chroma keys its rows by id: no two rows share one. */
  predicate UniqueIds(records: seq<Record>) {
    forall i, j :: 0 <= i < j < |records| ==> records[i].id != records[j].id
  }

  lemma {:induction false} AddRecordsKeepsUniqueIds(records: seq<Record>, batch: seq<Record>)
    requires UniqueIds(records)
    ensures UniqueIds(AddRecords(records, batch))
    decreases |batch|
  {
    if batch != [] && !HasId(records, batch[0].id) {
      var rs := records + [batch[0]];
      forall i, j | 0 <= i < j < |rs| ensures rs[i].id != rs[j].id {
        if j == |records| {
          assert rs[i] == records[i];
        }
      }
      AddRecordsKeepsUniqueIds(rs, batch[1..]);
    } else if batch != [] {
      AddRecordsKeepsUniqueIds(records, batch[1..]);
    }
  }

  /** A batch none of whose ids is in the collection, and whose own ids are distinct,
      is appended whole. */
  lemma {:induction false} AddFreshRecords(records: seq<Record>, batch: seq<Record>)
    requires UniqueIds(batch)
    requires forall j :: 0 <= j < |batch| ==> !HasId(records, batch[j].id)
    ensures AddRecords(records, batch) == records + batch
    decreases |batch|
  {
    if batch != [] {
      var rs := records + [batch[0]];
      var rest := batch[1..];
      forall j | 0 <= j < |rest| ensures !HasId(rs, rest[j].id) {
        assert rest[j] == batch[j + 1];
      }
      assert UniqueIds(rest) by {
        forall a, b | 0 <= a < b < |rest| ensures rest[a].id != rest[b].id {
          assert rest[a] == batch[a + 1] && rest[b] == batch[b + 1];
        }
      }
      AddFreshRecords(rs, rest);
      assert rs + rest == records + batch;
    }
  }

  // ---------------------------------------------------------------------------
  // list_documents
  // ---------------------------------------------------------------------------

  /** `metadata.get('document_id')` when it passes the `if doc_id` test. */
  function ListedId(m: Metadata): (r: Option<MetaValue>)
    ensures r.Some? <==> DocumentIdKey in m && Truthy(m[DocumentIdKey])
    ensures r.Some? ==> r.value == m[DocumentIdKey]
  {
    if DocumentIdKey in m && Truthy(m[DocumentIdKey]) then Some(m[DocumentIdKey]) else None
  }

  /** One entry of the catalogue, with the defaults of `list_documents`. */
  datatype DocumentEntry = DocumentEntry(documentId: MetaValue, filename: MetaValue, uploadDate: MetaValue, fileSize: MetaValue)

  function EntryOf(m: Metadata): DocumentEntry
    requires DocumentIdKey in m
  {
    DocumentEntry(
      m[DocumentIdKey],
      GetOr(m, FilenameKey, Text("Unknown")),
      GetOr(m, UploadDateKey, Text("Unknown")),
      GetOr(m, FileSizeKey, Number(0)))
  }

  /** Row k carries a listed document id that no earlier row carries. */
  predicate IsFirst(metas: seq<Metadata>, k: nat)
    requires k < |metas|
  {
    ListedId(metas[k]).Some? &&
    forall j :: 0 <= j < k ==> Lookup(metas[j], DocumentIdKey) != ListedId(metas[k])
  }

  /** The rows below i that introduce a new document id, in increasing order. */
  function FirstsBelow(metas: seq<Metadata>, i: nat): (fs: seq<nat>)
    requires i <= |metas|
    ensures forall a :: 0 <= a < |fs| ==> fs[a] < i && DocumentIdKey in metas[fs[a]]
    decreases i
  {
    if i == 0 then []
    else FirstsBelow(metas, i - 1) + (if IsFirst(metas, i - 1) then [i - 1] else [])
  }

  /** The first occurrences below i, each exactly once, in increasing order. */
  lemma {:induction false} FirstsBelowFacts(metas: seq<Metadata>, i: nat)
    requires i <= |metas|
    ensures forall a :: 0 <= a < |FirstsBelow(metas, i)| ==> IsFirst(metas, FirstsBelow(metas, i)[a])
    ensures forall a, b :: 0 <= a < b < |FirstsBelow(metas, i)| ==> FirstsBelow(metas, i)[a] < FirstsBelow(metas, i)[b]
    ensures forall k :: 0 <= k < i && IsFirst(metas, k) ==> k in FirstsBelow(metas, i)
    decreases i
  {
    if i > 0 {
      FirstsBelowFacts(metas, i - 1);
    }
  }

  /** The values of the `documents` dict `list_documents` fills: one entry per first
      occurrence of a listed id, in the order of those first occurrences. */
  function Catalog(metas: seq<Metadata>): seq<DocumentEntry>
  {
    var fs := FirstsBelow(metas, |metas|);
    seq(|fs|, a requires 0 <= a < |fs| => EntryOf(metas[fs[a]]))
  }

  /** The listed ids that occur in the rows. */
  ghost function ListedIds(metas: seq<Metadata>): set<MetaValue> {
    set k | 0 <= k < |metas| && ListedId(metas[k]).Some? :: ListedId(metas[k]).value
  }

  /** The catalogue has one entry per listed document id: its entries have distinct ids,
      which are exactly the listed ids of the rows, and each entry is built from the
      first row that carries its id. */
  lemma CatalogIsOnePerDocument(metas: seq<Metadata>)
    ensures var c := Catalog(metas);
      && (forall a, b :: 0 <= a < b < |c| ==> c[a].documentId != c[b].documentId)
      && (forall a :: 0 <= a < |c| ==> c[a].documentId in ListedIds(metas))
      && (forall v :: v in ListedIds(metas) ==> exists a :: 0 <= a < |c| && c[a].documentId == v)
  {
    var fs := FirstsBelow(metas, |metas|);
    FirstsBelowFacts(metas, |metas|);
    var c := Catalog(metas);
    forall a, b | 0 <= a < b < |c| ensures c[a].documentId != c[b].documentId {
      assert fs[a] < fs[b] && IsFirst(metas, fs[b]);
      assert Lookup(metas[fs[a]], DocumentIdKey) != ListedId(metas[fs[b]]);
    }
    forall a | 0 <= a < |c| ensures c[a].documentId in ListedIds(metas) {
      assert ListedId(metas[fs[a]]).Some?;
    }
    forall v | v in ListedIds(metas) ensures exists a :: 0 <= a < |c| && c[a].documentId == v {
      var k :| 0 <= k < |metas| && ListedId(metas[k]).Some? && ListedId(metas[k]).value == v;
      var f := FirstRowWith(metas, v, k);
      var a :| 0 <= a < |fs| && fs[a] == f;
      assert c[a].documentId == v;
    }
  }

  /** The row where listed id v occurs first, at or before row k. */
  lemma {:induction false} FirstRowWith(metas: seq<Metadata>, v: MetaValue, k: nat) returns (f: nat)
    requires k < |metas| && ListedId(metas[k]) == Some(v)
    ensures f <= k && IsFirst(metas, f) && ListedId(metas[f]) == Some(v)
    decreases k
  {
    if IsFirst(metas, k) {
      f := k;
    } else {
      var j :| 0 <= j < k && Lookup(metas[j], DocumentIdKey) == ListedId(metas[k]);
      f := FirstRowWith(metas, v, j);
    }
  }

  /** Each catalogue entry is built from the earliest row carrying its id, and the entries
      follow the order of those rows (first-seen order): the rows behind the entries are
      increasing and are exactly the first occurrences of the listed ids. */
  lemma CatalogFirstSeen(metas: seq<Metadata>)
    ensures exists rows: seq<nat> ::
      && |rows| == |Catalog(metas)|
      && (forall a :: 0 <= a < |rows| ==>
            rows[a] < |metas| && IsFirst(metas, rows[a]) && Catalog(metas)[a] == EntryOf(metas[rows[a]]))
      && (forall a, b :: 0 <= a < b < |rows| ==> rows[a] < rows[b])
      && (forall k :: 0 <= k < |metas| && IsFirst(metas, k) ==> k in rows)
  {
    FirstsBelowFacts(metas, |metas|);
    var rows := FirstsBelow(metas, |metas|);
    assert |rows| == |Catalog(metas)|;
  }

  /** One more row extends the catalogue by its entry exactly when the row carries a
      truthy `document_id` not listed before; a row without one, or with an id already
      seen, adds nothing. */
  lemma CatalogSnoc(metas: seq<Metadata>, m: Metadata)
    ensures ListedId(m).Some? && ListedId(m).value !in ListedIds(metas) ==>
      Catalog(metas + [m]) == Catalog(metas) + [EntryOf(m)]
    ensures !(ListedId(m).Some? && ListedId(m).value !in ListedIds(metas)) ==>
      Catalog(metas + [m]) == Catalog(metas)
  {
    var ms := metas + [m];
    FirstsBelowPrefix(metas, m, |metas|);
    IsFirstLast(metas, m);
    var fs := FirstsBelow(metas, |metas|);
    assert FirstsBelow(ms, |ms|) == fs + (if IsFirst(ms, |metas|) then [|metas|] else []);
    assert forall a :: 0 <= a < |fs| ==> ms[fs[a]] == metas[fs[a]];
    if IsFirst(ms, |metas|) {
      assert Catalog(ms) == Catalog(metas) + [EntryOf(m)];
    } else {
      assert Catalog(ms) == Catalog(metas);
    }
  }

  /** The first occurrences among the first i rows do not depend on the rows after them. */
  lemma {:induction false} FirstsBelowPrefix(metas: seq<Metadata>, m: Metadata, i: nat)
    requires i <= |metas|
    ensures FirstsBelow(metas + [m], i) == FirstsBelow(metas, i)
    decreases i
  {
    if i > 0 {
      FirstsBelowPrefix(metas, m, i - 1);
      var ms := metas + [m];
      assert forall j :: 0 <= j < i ==> ms[j] == metas[j];
      assert IsFirst(ms, i - 1) == IsFirst(metas, i - 1);
    }
  }

  /** A last row is a first occurrence exactly when its listed id is new. */
  lemma IsFirstLast(metas: seq<Metadata>, m: Metadata)
    ensures IsFirst(metas + [m], |metas|) <==> ListedId(m).Some? && ListedId(m).value !in ListedIds(metas)
  {
    var ms := metas + [m];
    assert forall j :: 0 <= j < |metas| ==> ms[j] == metas[j];
    if ListedId(m).Some? {
      var v := ListedId(m).value;
      if v in ListedIds(metas) {
        var k :| 0 <= k < |metas| && ListedId(metas[k]).Some? && ListedId(metas[k]).value == v;
        assert Lookup(ms[k], DocumentIdKey) == ListedId(m);
      } else {
        forall j | 0 <= j < |metas| ensures Lookup(ms[j], DocumentIdKey) != ListedId(m) {
          var mj := metas[j];
          assert Lookup(mj, DocumentIdKey) == Some(v) ==> ListedId(mj) == Some(v);
        }
      }
    }
  }

  /** The document count `len(list_documents())` is the number of listed ids. */
  lemma CatalogSize(metas: seq<Metadata>)
    ensures |Catalog(metas)| == |ListedIds(metas)|
  {
    var c := Catalog(metas);
    CatalogIsOnePerDocument(metas);
    var ids := seq(|c|, a requires 0 <= a < |c| => c[a].documentId);
    assert forall a, b :: 0 <= a < b < |ids| ==> ids[a] != ids[b];
    assert (set a | 0 <= a < |ids| :: ids[a]) == ListedIds(metas) by {
      forall v | v in ListedIds(metas) ensures v in (set a | 0 <= a < |ids| :: ids[a]) {
        var a :| 0 <= a < |c| && c[a].documentId == v;
        assert ids[a] == v;
      }
    }
    DistinctSize(ids);
  }

  lemma {:induction false} DistinctSize<T>(xs: seq<T>)
    requires forall a, b :: 0 <= a < b < |xs| ==> xs[a] != xs[b]
    ensures |set a | 0 <= a < |xs| :: xs[a]| == |xs|
    decreases |xs|
  {
    if xs != [] {
      var init := xs[..|xs| - 1];
      DistinctSize(init);
      var s := set a | 0 <= a < |init| :: init[a];
      var all := set a | 0 <= a < |xs| :: xs[a];
      assert all == s + {xs[|xs| - 1]} by {
        forall v | v in all ensures v in s + {xs[|xs| - 1]} {
          var a :| 0 <= a < |xs| && xs[a] == v;
          if a < |xs| - 1 {
            assert init[a] == v;
          }
        }
      }
      assert xs[|xs| - 1] !in s;
    }
  }

  /** The metadata column `collection.get()['metadatas']`, in store order. */
  function MetadataColumn(records: seq<Record>): (ms: seq<Metadata>)
    ensures |ms| == |records| && forall i :: 0 <= i < |records| ==> ms[i] == records[i].metadata
  {
    seq(|records|, i requires 0 <= i < |records| => records[i].metadata)
  }

  /** What the loop of `list_documents` knows after the first i rows: `order` lists the
      dict's keys in insertion order, one per row in `firsts`, and every listed id of
      those rows is a key. */
  ghost predicate Collected(metas: seq<Metadata>, i: nat, documents: map<MetaValue, DocumentEntry>,
                            order: seq<MetaValue>, firsts: seq<nat>)
    requires i <= |metas|
  {
    && firsts == FirstsBelow(metas, i)
    && |order| == |firsts|
    && (forall a :: 0 <= a < |order| ==> ListedId(metas[firsts[a]]) == Some(order[a]))
    && (forall a :: 0 <= a < |order| ==> order[a] in documents && documents[order[a]] == EntryOf(metas[firsts[a]]))
    && (forall v :: v in documents ==> v in order)
    && (forall j :: 0 <= j < i && ListedId(metas[j]).Some? ==> ListedId(metas[j]).value in documents)
  }

  /** A row with a listed id not yet in the dict is a first occurrence and adds an entry. */
  lemma CollectNew(metas: seq<Metadata>, i: nat, documents: map<MetaValue, DocumentEntry>,
                   order: seq<MetaValue>, firsts: seq<nat>)
    requires i < |metas| && Collected(metas, i, documents, order, firsts)
    requires ListedId(metas[i]).Some? && ListedId(metas[i]).value !in documents
    ensures var v := ListedId(metas[i]).value;
      Collected(metas, i + 1, documents[v := EntryOf(metas[i])], order + [v], firsts + [i])
  {
    forall j | 0 <= j < i ensures Lookup(metas[j], DocumentIdKey) != ListedId(metas[i]) {
      if ListedId(metas[j]).Some? {
        assert ListedId(metas[j]).value in documents;
      }
    }
    assert IsFirst(metas, i);
  }

  /** Any other row leaves the dict as it is. */
  lemma CollectSkip(metas: seq<Metadata>, i: nat, documents: map<MetaValue, DocumentEntry>,
                    order: seq<MetaValue>, firsts: seq<nat>)
    requires i < |metas| && Collected(metas, i, documents, order, firsts)
    requires !(ListedId(metas[i]).Some? && ListedId(metas[i]).value !in documents)
    ensures Collected(metas, i + 1, documents, order, firsts)
  {
    if ListedId(metas[i]).Some? {
      FirstsBelowFacts(metas, i);
      var a :| 0 <= a < |order| && order[a] == ListedId(metas[i]).value;
      assert firsts[a] < i && Lookup(metas[firsts[a]], DocumentIdKey) == ListedId(metas[i]);
      assert !IsFirst(metas, i);
    }
  }

  /** The loop of `list_documents`: `documents` is the dict keyed by document id and
      `order` its insertion order, so the result is `list(documents.values())`. */
  method CollectDocuments(metas: seq<Metadata>) returns (entries: seq<DocumentEntry>)
    ensures entries == Catalog(metas)
  {
    var documents: map<MetaValue, DocumentEntry> := map[];
    var order: seq<MetaValue> := [];
    ghost var firsts: seq<nat> := [];
    for i := 0 to |metas|
      invariant Collected(metas, i, documents, order, firsts)
    {
      var docId := Lookup(metas[i], DocumentIdKey);
      if docId.Some? && Truthy(docId.value) && docId.value !in documents {
        CollectNew(metas, i, documents, order, firsts);
        documents := documents[docId.value := EntryOf(metas[i])];
        order := order + [docId.value];
        firsts := firsts + [i];
      } else {
        CollectSkip(metas, i, documents, order, firsts);
      }
    }
    entries := ValuesInOrder(documents, order);
    CollectedIsCatalog(metas, documents, order, firsts, entries);
  }

  /** `list(documents.values())`: the dict's values in key insertion order. */
  method ValuesInOrder(documents: map<MetaValue, DocumentEntry>, order: seq<MetaValue>) returns (entries: seq<DocumentEntry>)
    requires forall a :: 0 <= a < |order| ==> order[a] in documents
    ensures |entries| == |order| && forall b :: 0 <= b < |order| ==> entries[b] == documents[order[b]]
  {
    entries := [];
    for a := 0 to |order|
      invariant |entries| == a
      invariant forall b :: 0 <= b < a ==> entries[b] == documents[order[b]]
    {
      entries := entries + [documents[order[a]]];
    }
  }

  /** Once every row is seen, the dict's values in insertion order are the catalogue. */
  lemma CollectedIsCatalog(metas: seq<Metadata>, documents: map<MetaValue, DocumentEntry>,
                           order: seq<MetaValue>, firsts: seq<nat>, entries: seq<DocumentEntry>)
    requires Collected(metas, |metas|, documents, order, firsts)
    requires |entries| == |order| && forall b :: 0 <= b < |order| ==> entries[b] == documents[order[b]]
    ensures entries == Catalog(metas)
  {
    assert forall b :: 0 <= b < |entries| ==> entries[b] == EntryOf(metas[firsts[b]]);
  }

  // ---------------------------------------------------------------------------
  // delete_document and the search filter
  // ---------------------------------------------------------------------------

  /** The row matches the equality filter `where={"document_id": d}`. */
  predicate Matches(r: Record, documentId: string) {
    DocumentIdKey in r.metadata && r.metadata[DocumentIdKey] == Text(documentId)
  }

  /** `collection.get(where={"document_id": d})['ids']`, in store order. */
  function IdsWhere(records: seq<Record>, documentId: string): (ids: seq<string>)
    ensures forall x :: x in ids <==> exists i :: 0 <= i < |records| && Matches(records[i], documentId) && records[i].id == x
    decreases |records|
  {
    if records == [] then []
    else
      var rest := IdsWhere(records[1..], documentId);
      assert forall i :: 1 <= i < |records| ==> records[1..][i - 1] == records[i];
      if Matches(records[0], documentId) then [records[0].id] + rest else rest
  }

  /** `collection.delete(ids=...)`: every row whose id is listed goes, the rest stay in order. */
  function RemoveIds(records: seq<Record>, ids: seq<string>): (rs: seq<Record>)
    ensures forall r :: r in rs <==> r in records && r.id !in ids
    decreases |records|
  {
    if records == [] then []
    else if records[0].id in ids then RemoveIds(records[1..], ids)
    else [records[0]] + RemoveIds(records[1..], ids)
  }

  /** The rows that do not match the filter, in store order. */
  function KeepOthers(records: seq<Record>, documentId: string): (rs: seq<Record>)
    ensures forall r :: r in rs <==> r in records && !Matches(r, documentId)
    decreases |records|
  {
    if records == [] then []
    else if Matches(records[0], documentId) then KeepOthers(records[1..], documentId)
    else [records[0]] + KeepOthers(records[1..], documentId)
  }

  /** The collection after `delete_document(d)`. */
  function AfterDelete(records: seq<Record>, documentId: string): seq<Record> {
    var ids := IdsWhere(records, documentId);
    if ids != [] then RemoveIds(records, ids) else records
  }

  /** There is something to delete exactly when some row carries the id. */
  lemma DeleteFinds(records: seq<Record>, documentId: string)
    ensures IdsWhere(records, documentId) != [] <==> exists i :: 0 <= i < |records| && Matches(records[i], documentId)
  {
    if exists i :: 0 <= i < |records| && Matches(records[i], documentId) {
      var i :| 0 <= i < |records| && Matches(records[i], documentId);
      assert records[i].id in IdsWhere(records, documentId);
    }
  }

  /** With Chroma's unique ids, the two steps of `delete_document` remove exactly the rows
      of that document and keep every other row, in order. */
  lemma DeleteRemovesExactly(records: seq<Record>, documentId: string)
    requires UniqueIds(records)
    ensures AfterDelete(records, documentId) == KeepOthers(records, documentId)
  {
    var ids := IdsWhere(records, documentId);
    // With unique ids, an id is listed exactly when its own row matches.
    forall i | 0 <= i < |records| ensures records[i].id in ids <==> Matches(records[i], documentId) {
      if records[i].id in ids {
        var k :| 0 <= k < |records| && Matches(records[k], documentId) && records[k].id == records[i].id;
        assert k == i;
      }
    }
    RemoveWithExactIds(records, documentId, ids);
    if ids == [] {
      RemoveWithExactIds(records, documentId, []);
      RemoveNothing(records);
    }
  }

  /** With no matching row, every row is kept. */
  lemma {:induction false} NoMatchKeepsAll(records: seq<Record>, documentId: string)
    requires forall i :: 0 <= i < |records| ==> !Matches(records[i], documentId)
    ensures KeepOthers(records, documentId) == records
    decreases |records|
  {
    if records != [] {
      assert forall i :: 1 <= i < |records| ==> records[1..][i - 1] == records[i];
      NoMatchKeepsAll(records[1..], documentId);
    }
  }

  lemma {:induction false} RemoveNothing(records: seq<Record>)
    ensures RemoveIds(records, []) == records
    decreases |records|
  {
    if records != [] {
      RemoveNothing(records[1..]);
    }
  }

  lemma {:induction false} RemoveWithExactIds(records: seq<Record>, documentId: string, ids: seq<string>)
    requires forall i :: 0 <= i < |records| ==> (records[i].id in ids <==> Matches(records[i], documentId))
    ensures RemoveIds(records, ids) == KeepOthers(records, documentId)
    decreases |records|
  {
    if records != [] {
      assert forall i :: 1 <= i < |records| ==> records[1..][i - 1] == records[i];
      RemoveWithExactIds(records[1..], documentId, ids);
    }
  }

  /** A batch of rows that all belong to one document, with ids new to the store, is
      removed again whole by deleting that document, if the store had none of its rows. */
  lemma AddThenDeleteBatch(records: seq<Record>, b: seq<Record>, documentId: string)
    requires UniqueIds(records) && UniqueIds(b)
    requires forall j :: 0 <= j < |b| ==> Matches(b[j], documentId)
    requires forall i :: 0 <= i < |records| ==> !Matches(records[i], documentId)
    requires forall i :: 0 <= i < |records| ==> records[i].id !in IdsOf(b)
    ensures AfterDelete(AddRecords(records, b), documentId) == records
  {
    forall j | 0 <= j < |b| ensures !HasId(records, b[j].id) {
      assert b[j].id in IdsOf(b);
    }
    AddFreshRecords(records, b);
    var all := records + b;
    assert UniqueIds(all) by {
      forall i, j | 0 <= i < j < |all| ensures all[i].id != all[j].id {
        if i < |records| && j >= |records| {
          assert all[j] == b[j - |records|];
          assert all[i].id !in IdsOf(b);
        }
      }
    }
    DeleteRemovesExactly(all, documentId);
    KeepOthersAppend(records, b, documentId);
    NoMatchKeepsAll(records, documentId);
    AllMatchKeepsNone(b, documentId);
  }

  /** The ids of a batch of rows. */
  function IdsOf(b: seq<Record>): (ids: set<string>)
    ensures forall j :: 0 <= j < |b| ==> b[j].id in ids
  {
    set j | 0 <= j < |b| :: b[j].id
  }

  lemma {:induction false} KeepOthersAppend(xs: seq<Record>, ys: seq<Record>, documentId: string)
    ensures KeepOthers(xs + ys, documentId) == KeepOthers(xs, documentId) + KeepOthers(ys, documentId)
    decreases |xs|
  {
    if xs == [] {
      assert xs + ys == ys;
    } else {
      assert (xs + ys)[0] == xs[0];
      assert (xs + ys)[1..] == xs[1..] + ys;
      KeepOthersAppend(xs[1..], ys, documentId);
    }
  }

  lemma {:induction false} AllMatchKeepsNone(records: seq<Record>, documentId: string)
    requires forall i :: 0 <= i < |records| ==> Matches(records[i], documentId)
    ensures KeepOthers(records, documentId) == []
    decreases |records|
  {
    if records != [] {
      assert forall i :: 1 <= i < |records| ==> records[1..][i - 1] == records[i];
      AllMatchKeepsNone(records[1..], documentId);
    }
  }

  lemma {:induction false} KeepOthersKeepsUniqueIds(records: seq<Record>, documentId: string)
    requires UniqueIds(records)
    ensures UniqueIds(KeepOthers(records, documentId))
    decreases |records|
  {
    if records != [] {
      var rest := records[1..];
      assert forall i :: 1 <= i < |records| ==> rest[i - 1] == records[i];
      assert UniqueIds(rest);
      KeepOthersKeepsUniqueIds(rest, documentId);
      if !Matches(records[0], documentId) {
        var ks := KeepOthers(rest, documentId);
        var all := [records[0]] + ks;
        forall i, j | 0 <= i < j < |all| ensures all[i].id != all[j].id {
          if i == 0 {
            assert all[j] == ks[j - 1] && ks[j - 1] in rest;
          }
        }
      }
    }
  }

  /** The `where` filter of `search`: `{"document_id": d} if d else None`. */
  function SearchFilter(documentId: Option<string>): (f: Option<string>)
    ensures f.Some? <==> documentId.Some? && documentId.value != ""
    ensures f.Some? ==> f == documentId
  {
    match documentId
    case Some(d) => if d != "" then Some(d) else None
    case None => None
  }

  /** The hits of one query in the shape `search` returns them: text, metadata and
      distance of each row, in the store's order. */
  function HitsOf(hits: seq<(Record, real)>): seq<SearchHit>
  {
    seq(|hits|, i requires 0 <= i < |hits| => SearchHit(hits[i].0.text, hits[i].0.metadata, hits[i].1))
  }

  /** The loop of `search` that formats the store's hits. */
  method FormatHits(hits: seq<(Record, real)>) returns (results: seq<SearchHit>)
    ensures results == HitsOf(hits)
  {
    results := [];
    for i := 0 to |hits|
      invariant results == HitsOf(hits[..i])
    {
      assert hits[..i + 1] == hits[..i] + [hits[i]];
      results := results + [SearchHit(hits[i].0.text, hits[i].0.metadata, hits[i].1)];
    }
    assert hits[..|hits|] == hits;
  }

}
