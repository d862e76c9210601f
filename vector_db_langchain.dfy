/** `LangChainVectorDBService`: the same Chroma collection reached through LangChain.
    LangChain's text splitter, its embedding wrapper and `similarity_search_with_score`
    are oracles fixed at construction; the uuids LangChain draws for new rows are an
    argument of `AddDocument`. */
module VectorDbLangchain {
  import opened Common
  import opened ChunkStore

  /** LangChain's `Document`: page content and a metadata dict. */
  datatype LcDocument = LcDocument(pageContent: string, metadata: Metadata)

  /** `search_kwargs` of a retriever: the number of hits and the optional `document_id` filter. */
  datatype SearchKwargs = SearchKwargs(k: int, filter: Option<string>)

  const DefaultRetrieverK: int := 5

  /** The metadata of the whole document, `{**metadata, "document_id": document_id}`. */
  function DocumentMetadata(metadata: Metadata, documentId: string): (m: Metadata)
    ensures m.Keys == metadata.Keys + {DocumentIdKey}
    ensures m[DocumentIdKey] == Text(documentId)
    ensures forall k :: k in metadata && k != DocumentIdKey ==> m[k] == metadata[k]
  {
    metadata[DocumentIdKey := Text(documentId)]
  }

  /** `split_documents([doc])`: one document per piece, each with a copy of doc's metadata. */
  function SplitDocument(pieces: seq<string>, metadata: Metadata): seq<LcDocument>
  {
    seq(|pieces|, i requires 0 <= i < |pieces| => LcDocument(pieces[i], metadata))
  }

  /** What the loop body of `add_document` writes into chunk i of n. */
  function Annotated(d: LcDocument, i: nat, n: nat): LcDocument
  {
    d.(metadata := d.metadata[ChunkIndexKey := Number(i)][TotalChunksKey := Number(n)])
  }

  /** The chunks `add_document` hands to the store: the split pieces of the document,
      annotated. Their metadata is exactly what `VectorDBService` stamps on its chunks:
      the caller's keys, overridden by `document_id`, `chunk_index = i` and `total_chunks`. */
  function AnnotatedChunks(pieces: seq<string>, metadata: Metadata, documentId: string): (cs: seq<LcDocument>)
    ensures |cs| == |pieces|
    ensures forall i :: 0 <= i < |pieces| ==>
      cs[i] == LcDocument(pieces[i], ChunkMetadata(metadata, documentId, i, |pieces|))
  {
    var split := SplitDocument(pieces, DocumentMetadata(metadata, documentId));
    seq(|split|, i requires 0 <= i < |split| => Annotated(split[i], i, |split|))
  }

  /** The rows LangChain's `add_documents` writes: one per chunk, with the given ids. */
  function ChunkRows(encode: string -> Vector, ids: seq<string>, chunks: seq<LcDocument>): seq<Record>
    requires |ids| == |chunks|
  {
    seq(|chunks|, i requires 0 <= i < |chunks| =>
      Record(ids[i], encode(chunks[i].pageContent), chunks[i].pageContent, chunks[i].metadata))
  }

  /** Every row of a document added through LangChain carries its piece, its embedding and
      the stamped metadata, and is found again by the `document_id` filter. */
  lemma ChunkRowsShape(encode: string -> Vector, ids: seq<string>, pieces: seq<string>, metadata: Metadata, documentId: string)
    requires |ids| == |pieces|
    ensures var b := ChunkRows(encode, ids, AnnotatedChunks(pieces, metadata, documentId));
      && |b| == |pieces|
      && forall i :: 0 <= i < |b| ==>
           && b[i].id == ids[i] && b[i].text == pieces[i] && b[i].embedding == encode(pieces[i])
           && b[i].metadata[DocumentIdKey] == Text(documentId)
           && b[i].metadata[ChunkIndexKey] == Number(i)
           && b[i].metadata[TotalChunksKey] == Number(|pieces|)
           && Matches(b[i], documentId)
  {
  }

  /** `as_retriever(search_kwargs)`: without arguments the retriever returns 5 hits and
      filters nothing; given arguments are used as they are. */
  function AsRetrieverKwargs(searchKwargs: Option<SearchKwargs>): (kw: SearchKwargs)
    ensures searchKwargs.None? ==> kw.k == DefaultRetrieverK && kw.filter.None?
    ensures searchKwargs.Some? ==> kw == searchKwargs.value
  {
    match searchKwargs
    case None => SearchKwargs(DefaultRetrieverK, None)
    case Some(kw) => kw
  }

  /** Adding a document through LangChain, with fresh uuids, to a store that holds none of
      its rows, and then deleting it, gives the store back as it was. */
  lemma AddThenDelete(records: seq<Record>, encode: string -> Vector, ids: seq<string>,
                      pieces: seq<string>, metadata: Metadata, documentId: string)
    requires |ids| == |pieces|
    requires UniqueIds(records)
    requires forall i, j :: 0 <= i < j < |ids| ==> ids[i] != ids[j]
    requires forall i :: 0 <= i < |records| ==> records[i].id !in ids
    requires forall i :: 0 <= i < |records| ==> !Matches(records[i], documentId)
    ensures AfterDelete(records + ChunkRows(encode, ids, AnnotatedChunks(pieces, metadata, documentId)), documentId) == records
  {
    var b := ChunkRows(encode, ids, AnnotatedChunks(pieces, metadata, documentId));
    ChunkRowsShape(encode, ids, pieces, metadata, documentId);
    forall j | 0 <= j < |b| ensures !HasId(records, b[j].id) {
      assert b[j].id == ids[j];
    }
    assert forall x :: x in IdsOf(b) ==> x in ids;
    AddFreshRecords(records, b);
    AddThenDeleteBatch(records, b, documentId);
  }

  /** The loop of `add_document` over the split chunks, which it updates in place. */
  method AnnotateChunks(chunks: array<LcDocument>)
    modifies chunks
    ensures forall i :: 0 <= i < chunks.Length ==> chunks[i] == Annotated(old(chunks[i]), i, chunks.Length)
  {
    for i := 0 to chunks.Length
      invariant forall j :: 0 <= j < i ==> chunks[j] == Annotated(old(chunks[j]), j, chunks.Length)
      invariant forall j :: i <= j < chunks.Length ==> chunks[j] == old(chunks[j])
    {
      chunks[i] := Annotated(chunks[i], i, chunks.Length);
    }
  }

  class LangChainVectorDBService {
    /** The rows of the `documents` collection, in insertion order. */
    var records: seq<Record>
    /** `RecursiveCharacterTextSplitter(500, 50, ...).split_text`: the pieces of a text. */
    const split: string -> seq<string>
    /** `HuggingFaceEmbeddings.embed_documents` on one text. */
    const encode: string -> Vector
    /** `similarity_search_with_score(query, k, filter)` on the current rows. */
    const similaritySearch: (string, int, Option<string>, seq<Record>) -> seq<(Record, real)>

    /** Chroma keys its rows by id. */
    ghost predicate Valid()
      reads this
    {
      UniqueIds(records)
    }

    /** Connects to a persisted collection holding `stored`. */
    constructor (stored: seq<Record>, split: string -> seq<string>, encode: string -> Vector,
                 similaritySearch: (string, int, Option<string>, seq<Record>) -> seq<(Record, real)>)
      requires UniqueIds(stored)
      ensures Valid()
      ensures records == stored && this.split == split && this.encode == encode
      ensures this.similaritySearch == similaritySearch
    {
      records := stored;
      this.split := split;
      this.encode := encode;
      this.similaritySearch := similaritySearch;
    }

    /** `add_document`: wrap the text in a document carrying `document_id`, split it,
        annotate every chunk with its index and the chunk count, and add the chunks under
        the uuids `uuids`, which LangChain draws one per chunk and which are new. */
    method AddDocument(documentId: string, text: string, metadata: Metadata, uuids: seq<string>)
      requires Valid()
      requires |uuids| == |split(text)|
      requires forall i, j :: 0 <= i < j < |uuids| ==> uuids[i] != uuids[j]
      requires forall i :: 0 <= i < |records| ==> records[i].id !in uuids
      modifies this
      ensures Valid()
      ensures records == old(records) + ChunkRows(encode, uuids, AnnotatedChunks(split(text), metadata, documentId))
    {
      var doc := LcDocument(text, DocumentMetadata(metadata, documentId));
      var pieces := split(doc.pageContent);
      var chunks := new LcDocument[|pieces|](i requires 0 <= i < |pieces| => LcDocument(pieces[i], doc.metadata));
      assert chunks[..] == SplitDocument(pieces, doc.metadata);
      AnnotateChunks(chunks);
      var batch := seq(chunks.Length, i requires 0 <= i < chunks.Length reads chunks =>
        Record(uuids[i], encode(chunks[i].pageContent), chunks[i].pageContent, chunks[i].metadata));
      assert batch == ChunkRows(encode, uuids, AnnotatedChunks(pieces, metadata, documentId));
      var all := records + batch;
      assert UniqueIds(all) by {
        forall i, j | 0 <= i < j < |all| ensures all[i].id != all[j].id {
          if j >= |records| {
            assert all[j].id == uuids[j - |records|];
            if i >= |records| {
              assert all[i].id == uuids[i - |records|];
            } else {
              assert all[i] == records[i];
            }
          }
        }
      }
      records := all;
    }

    /** `search`: `similarity_search_with_score`, with the `document_id` filter only when
        a non-empty id is given, its hits formatted in the order the store returns them. */
    method Search(q: string, topK: int, documentId: Option<string>) returns (results: seq<SearchHit>)
      ensures var hits := similaritySearch(q, topK, SearchFilter(documentId), records);
        results == HitsOf(hits)
    {
      var filter := SearchFilter(documentId);
      var hits: seq<(Record, real)>;
      if filter.Some? {
        hits := similaritySearch(q, topK, filter, records);
      } else {
        hits := similaritySearch(q, topK, None, records);
      }
      results := FormatHits(hits);
    }

    /** `list_documents`: one entry per document id, in first-seen order. */
    method ListDocuments() returns (entries: seq<DocumentEntry>)
      ensures entries == Catalog(MetadataColumn(records))
    {
      entries := CollectDocuments(MetadataColumn(records));
    }

    /** `get_document_count`: the number of distinct listed document ids. */
    method GetDocumentCount() returns (count: nat)
      ensures count == |ListedIds(MetadataColumn(records))|
    {
      var entries := ListDocuments();
      CatalogSize(MetadataColumn(records));
      count := |entries|;
    }

    /** `delete_document`: get the ids of the document's rows, delete them, and say whether
        there were any. */
    method DeleteDocument(documentId: string) returns (deleted: bool)
      requires Valid()
      modifies this
      ensures Valid()
      ensures deleted <==> exists i :: 0 <= i < |old(records)| && Matches(old(records)[i], documentId)
      ensures records == KeepOthers(old(records), documentId)
    {
      DeleteFinds(records, documentId);
      DeleteRemovesExactly(records, documentId);
      KeepOthersKeepsUniqueIds(records, documentId);
      var ids := IdsWhere(records, documentId);
      if ids != [] {
        records := RemoveIds(records, ids);
        deleted := true;
      } else {
        deleted := false;
      }
    }
  }
}
