/** `VectorDBService`: the Chroma-backed document store. The collection is the sequence
    of rows `records`; the sentence embedding model and Chroma's nearest-neighbour
    query are oracles fixed at construction. */
module VectorDb {
  import opened Common
  import opened ChunkStore
  import Chunking

  /** The rows `add_document` hands to `collection.add` for the document's chunks: chunk i,
      its embedding, id `{document_id}_chunk_{i}` and the stamped metadata. */
  function ChunkBatch(encode: string -> Vector, documentId: string, chunks: seq<string>, metadata: Metadata): seq<Record>
  {
    seq(|chunks|, i requires 0 <= i < |chunks| =>
      Record(ChunkId(documentId, i), encode(chunks[i]), chunks[i], ChunkMetadata(metadata, documentId, i, |chunks|)))
  }

  /** One row per chunk, with distinct ids; row i carries chunk i, its embedding, and
      metadata saying it is chunk i of the document's chunk count. */
  lemma ChunkBatchShape(encode: string -> Vector, documentId: string, chunks: seq<string>, metadata: Metadata)
    ensures var b := ChunkBatch(encode, documentId, chunks, metadata);
      && |b| == |chunks|
      && UniqueIds(b)
      && forall i :: 0 <= i < |b| ==>
           && b[i].id == ChunkId(documentId, i)
           && b[i].text == chunks[i] && b[i].embedding == encode(chunks[i])
           && b[i].metadata[DocumentIdKey] == Text(documentId)
           && b[i].metadata[ChunkIndexKey] == Number(i)
           && b[i].metadata[TotalChunksKey] == Number(|chunks|)
           && Matches(b[i], documentId)
  {
    var b := ChunkBatch(encode, documentId, chunks, metadata);
    forall i, j | 0 <= i < j < |b| ensures b[i].id != b[j].id {
      if b[i].id == b[j].id {
        ChunkIdInjective(documentId, i, documentId, j);
      }
    }
  }

  /** Adding a document whose chunks are new to the store and then deleting it gives the
      store back as it was. */
  lemma AddThenDelete(records: seq<Record>, encode: string -> Vector, documentId: string, chunks: seq<string>, metadata: Metadata)
    requires UniqueIds(records)
    requires forall i :: 0 <= i < |records| ==> !Matches(records[i], documentId)
    requires forall i :: 0 <= i < |records| ==> records[i].id !in IdsOf(ChunkBatch(encode, documentId, chunks, metadata))
    ensures AfterDelete(AddRecords(records, ChunkBatch(encode, documentId, chunks, metadata)), documentId) == records
  {
    ChunkBatchShape(encode, documentId, chunks, metadata);
    AddThenDeleteBatch(records, ChunkBatch(encode, documentId, chunks, metadata), documentId);
  }

  class VectorDBService {
    /** The rows of the `documents` collection, in insertion order. */
    var records: seq<Record>
    /** `SentenceTransformer.encode` on one text. */
    const encode: string -> Vector
    /** `collection.query(query_embeddings=[e], n_results=k, where=filter)` on the current
        rows: the hits of the single query, each row with its distance. */
    const query: (Vector, int, Option<string>, seq<Record>) -> seq<(Record, real)>

    /** Chroma keys its rows by id. */
    ghost predicate Valid()
      reads this
    {
      UniqueIds(records)
    }

    /** Connects to a persisted collection holding `stored`. */
    constructor (stored: seq<Record>, encode: string -> Vector, query: (Vector, int, Option<string>, seq<Record>) -> seq<(Record, real)>)
      requires UniqueIds(stored)
      ensures Valid()
      ensures records == stored && this.encode == encode && this.query == query
    {
      records := stored;
      this.encode := encode;
      this.query := query;
    }

    /** `add_document`: chunk the text, embed every chunk and add one row per chunk. */
    method AddDocument(documentId: string, text: string, metadata: Metadata)
      requires Valid()
      modifies this
      ensures Valid()
      ensures records == AddRecords(old(records),
        ChunkBatch(encode, documentId, Chunking.Chunks(text, Chunking.DefaultChunkSize, Chunking.DefaultOverlap), metadata))
    {
      var chunks := Chunking.ChunkText(text, Chunking.DefaultChunkSize, Chunking.DefaultOverlap);
      var embeddings := seq(|chunks|, i requires 0 <= i < |chunks| => encode(chunks[i]));
      var chunkIds := seq(|chunks|, i requires 0 <= i < |chunks| => ChunkId(documentId, i));
      var chunkMetadata := seq(|chunks|, i requires 0 <= i < |chunks| => ChunkMetadata(metadata, documentId, i, |chunks|));
      var batch := seq(|chunks|, i requires 0 <= i < |chunks| => Record(chunkIds[i], embeddings[i], chunks[i], chunkMetadata[i]));
      assert batch == ChunkBatch(encode, documentId, chunks, metadata);
      AddRecordsKeepsUniqueIds(records, batch);
      records := AddRecords(records, batch);
    }

    /** `search`: one Chroma query with the `document_id` filter when one is given, its
        hits formatted in the order Chroma returns them. */
    method Search(q: string, topK: int, documentId: Option<string>) returns (results: seq<SearchHit>)
      ensures var hits := query(encode(q), topK, SearchFilter(documentId), records);
        results == HitsOf(hits)
    {
      var hits := query(encode(q), topK, SearchFilter(documentId), records);
      results := FormatHits(hits);
    }

    /** `list_documents`: one entry per document id, in first-seen order. */
    method ListDocuments() returns (entries: seq<DocumentEntry>)
      ensures entries == Catalog(MetadataColumn(records))
    {
      entries := CollectDocuments(MetadataColumn(records));
    }

    /** `get_document_count`: the number of distinct listed document ids. */
    method GetDocumentCount() returns (count: nat)
      ensures count == |ListedIds(MetadataColumn(records))|
    {
      var entries := ListDocuments();
      CatalogSize(MetadataColumn(records));
      count := |entries|;
    }

    /** `delete_document`: look up the ids of the document's rows, delete them, and say
        whether there were any. */
    method DeleteDocument(documentId: string) returns (deleted: bool)
      requires Valid()
      modifies this
      ensures Valid()
      ensures deleted <==> exists i :: 0 <= i < |old(records)| && Matches(old(records)[i], documentId)
      ensures records == KeepOthers(old(records), documentId)
    {
      DeleteFinds(records, documentId);
      DeleteRemovesExactly(records, documentId);
      KeepOthersKeepsUniqueIds(records, documentId);
      var ids := IdsWhere(records, documentId);
      if ids != [] {
        records := RemoveIds(records, ids);
        deleted := true;
      } else {
        deleted := false;
      }
    }
  }
}
