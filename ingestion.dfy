/** The ingestion coordinator: a document is extracted, hashed, checked
    for a duplicate, recorded, chunked, embedded, upserted into the vector
    index in batches and stored chunk by chunk; deleting a file removes its
    vectors, its chunk rows and its document row, in that order. The
    readers, the digest, the tokenizer, the embedding call, the ids and the
    clock are inputs. */
module Ingestion {
  import opened Wrappers
  import opened Text
  import opened Seqs
  import Ids
  import Extraction
  import ContentHash
  import Chunker
  import DocumentSchema
  import DocumentStore
  import ChunkSchema
  import ChunkStore
  import VectorIndex

  /** Vectors are sent to the index this many at a time. */
  const BatchSize := 100

  /** The vector metadata keeps this many characters of the chunk text. */
  const MetadataContentLength := 500

  /** `f"{document_id}_{i}"`: the id a chunk has in the vector index and in its row. */
  function VectorId(documentId: string, i: nat): string {
    documentId + "_" + NatToString(i)
  }

  /** Chunks of one document get distinct vector ids. */
  lemma VectorIdInjective(documentId: string, i: nat, j: nat)
    requires VectorId(documentId, i) == VectorId(documentId, j)
    ensures i == j
  {
    var n := |documentId| + 1;
    assert VectorId(documentId, i)[n..] == NatToString(i);
    assert VectorId(documentId, j)[n..] == NatToString(j);
    NatToStringInjective(i, j);
  }

  /** The external services the coordinator calls. `estimate(text)(k)` is
      the fallback start of a window at token `k` of `text`. */
  datatype Services = Services(
    readers: Extraction.Readers,
    md5: string -> ContentHash.Digest,
    tok: Chunker.Tokenizer,
    estimate: string -> nat -> nat,
    embed: string -> seq<real>)

  /** What the environment hands one call: fresh ids, clock readings, and
      whether each insert comes back with its row. */
  datatype Env = Env(
    documentId: string,
    documentTime: int,
    documentInserted: bool,
    chunkId: nat -> string,
    chunkTime: nat -> int,
    chunkInserted: nat -> bool,
    updateTime: int)

  /** `MAX_TOKENS_PER_CHUNK` and `OVERLAPPING_TOKEN`. */
  datatype Config = Config(maxTokens: int, overlap: int)

  /** The settings the model covers: a positive window size, and an overlap
      below it, without which the window loop never advances. Non-positive
      window sizes, which slice with negative bounds, are outside the model. */
  predicate ValidConfig(cfg: Config) {
    cfg.maxTokens >= 1 && cfg.overlap < cfg.maxTokens
  }

  function ChunkParams(s: Services, cfg: Config, text: string): Chunker.Params {
    Chunker.Params(text, s.tok, s.estimate(text), cfg.maxTokens, cfg.overlap)
  }

  /** The two tables and the index, and the requests the index has received. */
  datatype Tables = Tables(
    docs: seq<DocumentStore.DocumentRow>,
    chunks: seq<ChunkStore.ChunkRow>,
    vectors: map<string, VectorIndex.VectorRecord>,
    calls: seq<VectorIndex.Call>)

  /** Why processing stopped; each is an exception the coordinator logs
      and swallows. */
  datatype Failure =
    | ExtractFailed(error: Extraction.ExtractError)
    | DocumentRejected(fields: set<DocumentSchema.Field>)
    | DocumentInsertFailed
    | ChunkingFailed
    | ChunkRejected(index: nat, chunkFields: set<ChunkSchema.Field>)
    | ChunkInsertFailed(index: nat)
    | InvalidDocumentId

  datatype Outcome =
    | AlreadyExists(message: string)
    | Processed(documentId: string, chunkCount: nat)
    | Failed(failure: Failure)

  /** What `process_document` returns: the duplicate message, otherwise `None`. */
  function Returned(o: Outcome): Option<string> {
    if o.AlreadyExists? then Some(o.message) else None
  }

  function ExistsMessage(filename: string): string {
    "Document " + filename + " already exists in the system."
  }

  // ---------------------------------------------------------------------
  // Records built from the chunks

  /** The vector sent for chunk `i`: its id, its embedding, and metadata
      with the first 500 characters of its text. */
  function VectorRecordOf(embed: string -> seq<real>, documentId: string, filename: string, i: nat, pc: Chunker.Piece)
    : VectorIndex.VectorRecord
  {
    VectorIndex.VectorRecord(
      VectorId(documentId, i), embed(pc.text),
      VectorIndex.Metadata(documentId, filename, i, pc.startChar, pc.endChar, Take(pc.text, MetadataContentLength)))
  }

  /** The row record for chunk `i`. */
  function ChunkRecordOf(documentId: string, i: nat, pc: Chunker.Piece): ChunkSchema.ChunkCreate {
    ChunkSchema.ChunkCreate(documentId, i, pc.text, pc.tokenCount, pc.startChar, pc.endChar, VectorId(documentId, i))
  }

  function VectorRecords(embed: string -> seq<real>, documentId: string, filename: string, pieces: seq<Chunker.Piece>)
    : seq<VectorIndex.VectorRecord>
  {
    seq(|pieces|, i requires 0 <= i < |pieces| => VectorRecordOf(embed, documentId, filename, i, pieces[i]))
  }

  function ChunkRecords(documentId: string, pieces: seq<Chunker.Piece>): seq<ChunkSchema.ChunkCreate> {
    seq(|pieces|, i requires 0 <= i < |pieces| => ChunkRecordOf(documentId, i, pieces[i]))
  }

  /** Chunk `i`'s vector and row agree: both carry index `i` and vector id
      `"{document_id}_{i}"`, the row holds the whole text, the metadata its
      first 500 characters, and both the same character range. */
  lemma RecordsAgree(embed: string -> seq<real>, documentId: string, filename: string, pieces: seq<Chunker.Piece>, i: nat)
    requires i < |pieces|
    ensures |VectorRecords(embed, documentId, filename, pieces)| == |ChunkRecords(documentId, pieces)| == |pieces|
    ensures var v := VectorRecords(embed, documentId, filename, pieces)[i];
      var c := ChunkRecords(documentId, pieces)[i];
      v.id == c.vectorId == VectorId(documentId, i)
      && v.metadata.chunkIndex == c.chunkIndex == i
      && v.metadata.documentId == c.documentId == documentId
      && c.content == pieces[i].text && c.tokenCount == pieces[i].tokenCount
      && v.metadata.startChar == c.startCharIndex == pieces[i].startChar
      && v.metadata.endChar == c.endCharIndex == pieces[i].endChar
      && v.metadata.content == Take(c.content, MetadataContentLength)
      && |v.metadata.content| <= MetadataContentLength
      && v.metadata.content == c.content[..|v.metadata.content|]
  {
  }

  /** No two vectors of one document share an id. */
  lemma VectorIdsDistinct(embed: string -> seq<real>, documentId: string, filename: string, pieces: seq<Chunker.Piece>)
    ensures forall i, j :: 0 <= i < j < |pieces| ==>
      VectorRecords(embed, documentId, filename, pieces)[i].id != VectorRecords(embed, documentId, filename, pieces)[j].id
  {
    var vs := VectorRecords(embed, documentId, filename, pieces);
    forall i, j | 0 <= i < j < |pieces| ensures vs[i].id != vs[j].id {
      if vs[i].id == vs[j].id {
        VectorIdInjective(documentId, i, j);
      }
    }
  }

  /** The loop over the chunks that appends one vector and one row record each. */
  method BuildRecords(embed: string -> seq<real>, documentId: string, filename: string, pieces: seq<Chunker.Piece>)
    returns (vectors: seq<VectorIndex.VectorRecord>, records: seq<ChunkSchema.ChunkCreate>)
    ensures vectors == VectorRecords(embed, documentId, filename, pieces)
    ensures records == ChunkRecords(documentId, pieces)
  {
    vectors := [];
    records := [];
    var i := 0;
    while i < |pieces|
      invariant 0 <= i <= |pieces|
      invariant |vectors| == i && |records| == i
      invariant forall k :: 0 <= k < i ==> vectors[k] == VectorRecordOf(embed, documentId, filename, k, pieces[k])
      invariant forall k :: 0 <= k < i ==> records[k] == ChunkRecordOf(documentId, k, pieces[k])
    {
      var chunkText := pieces[i].text;
      var vectorId := documentId + "_" + NatToString(i);
      vectors := vectors + [VectorIndex.VectorRecord(
        vectorId, embed(chunkText),
        VectorIndex.Metadata(documentId, filename, i, pieces[i].startChar, pieces[i].endChar, Take(chunkText, MetadataContentLength)))];
      records := records + [ChunkSchema.ChunkCreate(
        documentId, i, chunkText, pieces[i].tokenCount, pieces[i].startChar, pieces[i].endChar, vectorId)];
      i := i + 1;
    }
  }

  // ---------------------------------------------------------------------
  // Batches of upserts

  /** Where the batch starting at `i` ends. */
  function BatchEnd(n: nat, i: nat): nat {
    if i + BatchSize < n then i + BatchSize else n
  }

  /** `s[i:i + 100]` for each `i` of `range(start, len(s), 100)`. */
  function BatchesFrom<T>(s: seq<T>, i: nat): seq<seq<T>>
    decreases |s| - i
  {
    if i >= |s| then [] else [s[i..BatchEnd(|s|, i)]] + BatchesFrom(s, BatchEnd(|s|, i))
  }

  function Batches<T>(s: seq<T>): seq<seq<T>> {
    BatchesFrom(s, 0)
  }

  function Flatten<T>(ss: seq<seq<T>>): seq<T>
    decreases |ss|
  {
    if |ss| == 0 then [] else ss[0] + Flatten(ss[1..])
  }

  /** The batches from `i` on cover `s[i..]` exactly once, in order; each
      holds one to 100 elements, and all but the last exactly 100. */
  lemma {:induction false} BatchesFromCover<T>(s: seq<T>, i: nat)
    requires i <= |s|
    ensures Flatten(BatchesFrom(s, i)) == s[i..]
    ensures forall k :: 0 <= k < |BatchesFrom(s, i)| ==> 1 <= |BatchesFrom(s, i)[k]| <= BatchSize
    ensures forall k :: 0 <= k < |BatchesFrom(s, i)| - 1 ==> |BatchesFrom(s, i)[k]| == BatchSize
    decreases |s| - i
  {
    if i < |s| {
      var next := BatchEnd(|s|, i);
      var rest := BatchesFrom(s, next);
      BatchesFromCover(s, next);
      var bs := BatchesFrom(s, i);
      assert bs == [s[i..next]] + rest;
      assert bs[0] == s[i..next] && bs[1..] == rest;
      assert s[i..] == s[i..next] + s[next..];
      forall k | 1 <= k < |bs| ensures bs[k] == rest[k - 1] {
      }
      if next < |s| {
        assert |rest| > 0;
      }
    }
  }

  /** The batches of `s` cover it exactly once, in order. */
  lemma BatchesCover<T>(s: seq<T>)
    ensures Flatten(Batches(s)) == s
    ensures forall k :: 0 <= k < |Batches(s)| ==> 1 <= |Batches(s)[k]| <= BatchSize
    ensures forall k :: 0 <= k < |Batches(s)| - 1 ==> |Batches(s)[k]| == BatchSize
  {
    BatchesFromCover(s, 0);
  }

  function UpsertCalls(bs: seq<seq<VectorIndex.VectorRecord>>): seq<VectorIndex.Call>
    decreases |bs|
  {
    if |bs| == 0 then [] else [VectorIndex.UpsertCall(bs[0])] + UpsertCalls(bs[1..])
  }

  lemma UpsertCallsCons(b: seq<VectorIndex.VectorRecord>, rest: seq<seq<VectorIndex.VectorRecord>>)
    ensures UpsertCalls([b] + rest) == [VectorIndex.UpsertCall(b)] + UpsertCalls(rest)
  {
    assert ([b] + rest)[0] == b && ([b] + rest)[1..] == rest;
  }

  /** The index after each batch in turn. */
  function UpsertedAll(m: map<string, VectorIndex.VectorRecord>, bs: seq<seq<VectorIndex.VectorRecord>>)
    : map<string, VectorIndex.VectorRecord>
    decreases |bs|
  {
    if |bs| == 0 then m else UpsertedAll(VectorIndex.Upserted(m, bs[0]), bs[1..])
  }

  /** Upserting batch after batch leaves the index as one upsert of all
      the remaining vectors would. */
  lemma {:induction false} BatchedUpsertFrom(m: map<string, VectorIndex.VectorRecord>, s: seq<VectorIndex.VectorRecord>, i: nat)
    requires i <= |s|
    ensures UpsertedAll(m, BatchesFrom(s, i)) == VectorIndex.Upserted(m, s[i..])
    decreases |s| - i
  {
    if i < |s| {
      var next := BatchEnd(|s|, i);
      var bs := BatchesFrom(s, i);
      assert bs[0] == s[i..next] && bs[1..] == BatchesFrom(s, next);
      BatchedUpsertFrom(VectorIndex.Upserted(m, s[i..next]), s, next);
      assert s[i..] == s[i..next] + s[next..];
      VectorIndex.UpsertedConcat(m, s[i..next], s[next..]);
    }
  }

  /** Sending the vectors in batches of 100 has the effect of one upsert. */
  lemma BatchedUpsertIsUpsert(m: map<string, VectorIndex.VectorRecord>, s: seq<VectorIndex.VectorRecord>)
    ensures UpsertedAll(m, Batches(s)) == VectorIndex.Upserted(m, s)
  {
    BatchedUpsertFrom(m, s, 0);
  }

  /** One pass of the upload loop keeps both of its invariants. */
  lemma UploadStep(
    entries: map<string, VectorIndex.VectorRecord>, entries0: map<string, VectorIndex.VectorRecord>,
    calls: seq<VectorIndex.Call>, calls0: seq<VectorIndex.Call>,
    vectors: seq<VectorIndex.VectorRecord>, i: nat)
    requires i < |vectors|
    requires VectorIndex.Upserted(entries, vectors[i..]) == VectorIndex.Upserted(entries0, vectors)
    requires calls + UpsertCalls(BatchesFrom(vectors, i)) == calls0 + UpsertCalls(Batches(vectors))
    ensures var next := BatchEnd(|vectors|, i);
      VectorIndex.Upserted(VectorIndex.Upserted(entries, vectors[i..next]), vectors[next..]) == VectorIndex.Upserted(entries0, vectors)
      && (calls + [VectorIndex.UpsertCall(vectors[i..next])]) + UpsertCalls(BatchesFrom(vectors, next))
         == calls0 + UpsertCalls(Batches(vectors))
  {
    var next := BatchEnd(|vectors|, i);
    var batch := vectors[i..next];
    var later := UpsertCalls(BatchesFrom(vectors, next));
    assert BatchesFrom(vectors, i) == [batch] + BatchesFrom(vectors, next);
    UpsertCallsCons(batch, BatchesFrom(vectors, next));
    assert (calls + [VectorIndex.UpsertCall(batch)]) + later == calls + ([VectorIndex.UpsertCall(batch)] + later);
    assert vectors[i..] == batch + vectors[next..];
    VectorIndex.UpsertedConcat(entries, batch, vectors[next..]);
  }

  /** The upload loop: one upsert request per batch, in order. */
  method UpsertInBatches(index: VectorIndex.Index, vectors: seq<VectorIndex.VectorRecord>)
    modifies index
    ensures index.entries == VectorIndex.Upserted(old(index.entries), vectors)
    ensures index.calls == old(index.calls) + UpsertCalls(Batches(vectors))
  {
    ghost var entries0 := index.entries;
    ghost var calls0 := index.calls;
    var i := 0;
    while i < |vectors|
      invariant 0 <= i <= |vectors|
      invariant VectorIndex.Upserted(index.entries, vectors[i..]) == VectorIndex.Upserted(entries0, vectors)
      invariant index.calls + UpsertCalls(BatchesFrom(vectors, i)) == calls0 + UpsertCalls(Batches(vectors))
      decreases |vectors| - i
    {
      var next := BatchEnd(|vectors|, i);
      UploadStep(index.entries, entries0, index.calls, calls0, vectors, i);
      index.Upsert(vectors[i..next]);
      i := next;
    }
    assert vectors[i..] == [];
  }

  // ---------------------------------------------------------------------
  // Storing the chunk rows

  /** Chunk record `k` passes validation and its insert comes back with a row. */
  predicate Accepted(records: seq<ChunkSchema.ChunkCreate>, env: Env, k: nat)
    requires k < |records|
  {
    ChunkSchema.ValidCreate(records[k]) && env.chunkInserted(k)
  }

  /** Why record `k` stops the loop. */
  function FailureAt(records: seq<ChunkSchema.ChunkCreate>, env: Env, k: nat): Failure
    requires k < |records|
  {
    if !ChunkSchema.ValidCreate(records[k]) then ChunkRejected(k, ChunkSchema.CreateErrors(records[k]))
    else ChunkInsertFailed(k)
  }

  /** The rows records `i` to `j - 1` become. */
  function Created(records: seq<ChunkSchema.ChunkCreate>, env: Env, i: nat, j: nat): seq<ChunkStore.ChunkRow>
    requires i <= j <= |records|
  {
    seq(j - i, k requires 0 <= k < j - i => ChunkStore.NewRow(records[i + k], env.chunkId(i + k), env.chunkTime(i + k)))
  }

  /** `create_chunk(ChunkCreate(**chunk))` for records `i` on: each record
      is validated, then inserted; the first failure stops the loop and the
      rows inserted before it stay. */
  function InsertChunks(records: seq<ChunkSchema.ChunkCreate>, env: Env, i: nat, rows: seq<ChunkStore.ChunkRow>)
    : (Option<Failure>, seq<ChunkStore.ChunkRow>)
    decreases |records| - i
  {
    if i >= |records| then (None, rows)
    else if !ChunkSchema.ValidCreate(records[i]) then (Some(ChunkRejected(i, ChunkSchema.CreateErrors(records[i]))), rows)
    else if !env.chunkInserted(i) then (Some(ChunkInsertFailed(i)), rows)
    else InsertChunks(records, env, i + 1, rows + [ChunkStore.NewRow(records[i], env.chunkId(i), env.chunkTime(i))])
  }

  /** The loop stores the longest run of accepted records from `i` on,
      stopping with the first record that is not accepted. */
  lemma {:induction false} InsertChunksShape(records: seq<ChunkSchema.ChunkCreate>, env: Env, i: nat, rows: seq<ChunkStore.ChunkRow>)
    returns (j: nat)
    requires i <= |records|
    ensures i <= j <= |records|
    ensures forall k :: i <= k < j ==> Accepted(records, env, k)
    ensures InsertChunks(records, env, i, rows).1 == rows + Created(records, env, i, j)
    ensures j == |records| <==> InsertChunks(records, env, i, rows).0.None?
    ensures j < |records| ==> InsertChunks(records, env, i, rows).0 == Some(FailureAt(records, env, j))
    ensures j < |records| ==> !Accepted(records, env, j)
    decreases |records| - i
  {
    if i == |records| || !Accepted(records, env, i) {
      j := i;
      assert Created(records, env, i, i) == [];
      assert rows + [] == rows;
    } else {
      var row := ChunkStore.NewRow(records[i], env.chunkId(i), env.chunkTime(i));
      j := InsertChunksShape(records, env, i + 1, rows + [row]);
      assert Created(records, env, i, j) == [row] + Created(records, env, i + 1, j);
      assert rows + [row] + Created(records, env, i + 1, j) == rows + ([row] + Created(records, env, i + 1, j));
    }
  }

  /** The row-storing loop, one record at a time. */
  method CreateChunkRows(chunks: ChunkStore.ChunkService, records: seq<ChunkSchema.ChunkCreate>, env: Env)
    returns (failure: Option<Failure>)
    modifies chunks
    ensures (failure, chunks.rows) == InsertChunks(records, env, 0, old(chunks.rows))
  {
    var i := 0;
    while i < |records|
      invariant 0 <= i <= |records|
      invariant InsertChunks(records, env, i, chunks.rows) == InsertChunks(records, env, 0, old(chunks.rows))
      decreases |records| - i
    {
      var validated := ChunkSchema.ValidateCreate(records[i]);
      if validated.Err? {
        return Some(ChunkRejected(i, validated.error));
      }
      var created := chunks.CreateChunk(records[i], env.chunkId(i), env.chunkTime(i), env.chunkInserted(i));
      if created.Err? {
        return Some(ChunkInsertFailed(i));
      }
      i := i + 1;
    }
    failure := None;
  }

  // ---------------------------------------------------------------------
  // Processing a document

  /** The lookup by hash: the first document row with that hash. */
  function ByHash(docs: seq<DocumentStore.DocumentRow>, hash: string): Option<DocumentStore.DocumentRow> {
    First(docs, (x: DocumentStore.DocumentRow) => x.fileHash == hash)
  }

  /** The lookup by file name: the first document row with that name. */
  function ByFilename(docs: seq<DocumentStore.DocumentRow>, filename: string): Option<DocumentStore.DocumentRow> {
    First(docs, (x: DocumentStore.DocumentRow) => x.filename == filename)
  }

  /** The steps of `process_document` before the document row exists:
      reading, hashing, the duplicate check, validation and the insert.
      Either the outcome they stop with, or the text and the row inserted. */
  function Admit(s: Services, env: Env, path: string, docs: seq<DocumentStore.DocumentRow>)
    : Result<(string, DocumentStore.DocumentRow), Outcome>
  {
    var filename := Basename(path);
    match Extraction.Extract(s.readers, path)
    case Err(e) => Err(Failed(ExtractFailed(e)))
    case Ok(extracted) =>
      var text := extracted.0;
      var hash := ContentHash.FileHash(s.md5, text);
      if ByHash(docs, hash).Some? then Err(AlreadyExists(ExistsMessage(filename)))
      else
        var create := DocumentSchema.NewDocumentCreate(filename, path, Extraction.Tag(extracted.1), hash);
        if !DocumentSchema.ValidCreate(create) then Err(Failed(DocumentRejected(DocumentSchema.CreateErrors(create))))
        else if !env.documentInserted then Err(Failed(DocumentInsertFailed))
        else Ok((text, DocumentStore.NewRow(create, env.documentId, env.documentTime)))
  }

  /** `process_document`: the outcome and the tables afterwards. Nothing
      written before a failure is undone. */
  function Ingest(s: Services, cfg: Config, env: Env, path: string, t: Tables): (Outcome, Tables)
    requires ValidConfig(cfg)
  {
    match Admit(s, env, path, t.docs)
    case Err(o) => (o, t)
    case Ok(admitted) => Store(s, cfg, env, Basename(path), admitted.0, t.(docs := t.docs + [admitted.1]))
  }

  /** The steps after the document row exists: chunking, then the rest
      for the chunks. */
  function Store(s: Services, cfg: Config, env: Env, filename: string, text: string, t: Tables): (Outcome, Tables)
    requires ValidConfig(cfg)
  {
    match Chunker.Chunks(ChunkParams(s, cfg, text))
    case Err(_) => (Failed(ChunkingFailed), t)
    case Ok(pieces) => Save(s, env, filename, pieces, t)
  }

  /** The steps after chunking: the upload, the chunk rows, and the chunk
      count on the document row. */
  function Save(s: Services, env: Env, filename: string, pieces: seq<Chunker.Piece>, t: Tables): (Outcome, Tables)
  {
    var vectors := VectorRecords(s.embed, env.documentId, filename, pieces);
    var uploaded := t.(vectors := VectorIndex.Upserted(t.vectors, vectors), calls := t.calls + UpsertCalls(Batches(vectors)));
    var inserted := InsertChunks(ChunkRecords(env.documentId, pieces), env, 0, t.chunks);
    var stored := uploaded.(chunks := inserted.1);
    if inserted.0.Some? then (Failed(inserted.0.value), stored)
    else if !Ids.IsUuid(env.documentId) then (Failed(InvalidDocumentId), stored)
    else
      var u := DocumentSchema.TotalChunksUpdate(|pieces|);
      (Processed(env.documentId, |pieces|), stored.(docs := DocumentStore.UpdateWhere(stored.docs, env.documentId, u, env.updateTime)))
  }

  // ---------------------------------------------------------------------
  // Deleting a document

  datatype Removal = NotFound | Removed(documentId: string) | RemoveFailed

  /** `[v.vector_id for v in chunks]`. */
  function VectorIdsOf(rows: seq<ChunkStore.ChunkRow>): seq<string> {
    seq(|rows|, k requires 0 <= k < |rows| => rows[k].vectorId)
  }

  /** `delete_document`: the first document row named like the file's
      base name, then that document cleared. */
  function Remove(path: string, t: Tables): (Removal, Tables) {
    match ByFilename(t.docs, Basename(path))
    case None => (NotFound, t)
    case Some(d) => Clear(d.id, t)
  }

  /** The part of `delete_document` after the lookup: the document's
      chunks' vector ids, in `chunk_index` order, deleted from the index,
      then its chunk rows, then its row. An id that is not a UUID makes the
      chunk lookup raise before anything is deleted. */
  function Clear(d: string, t: Tables): (Removal, Tables) {
    if !Ids.IsUuid(d) then (RemoveFailed, t)
    else
      var ids := VectorIdsOf(ChunkStore.OfDocument(t.chunks, d));
      (Removed(d), Tables(
        DocumentStore.DeleteWhere(t.docs, d),
        ChunkStore.DeleteWhereDocument(t.chunks, d),
        VectorIndex.Deleted(t.vectors, ids),
        t.calls + [VectorIndex.DeleteCall(ids)]))
  }

  // ---------------------------------------------------------------------
  // The coordinator

  class DocumentProcessor {
    const services: Services
    const config: Config
    const documents: DocumentStore.DocumentService
    const chunks: ChunkStore.ChunkService
    const index: VectorIndex.Index

    constructor (services: Services, config: Config)
      requires ValidConfig(config)
      ensures this.services == services && this.config == config
      ensures Snapshot() == Tables([], [], map[], [])
    {
      this.services := services;
      this.config := config;
      documents := new DocumentStore.DocumentService();
      chunks := new ChunkStore.ChunkService();
      index := new VectorIndex.Index();
    }

    ghost function Snapshot(): Tables
      reads documents, chunks, index
    {
      Tables(documents.rows, chunks.rows, index.entries, index.calls)
    }

    /** `process_document`. */
    method ProcessDocument(path: string, env: Env) returns (o: Outcome)
      requires ValidConfig(config)
      modifies documents, chunks, index
      ensures (o, Snapshot()) == Ingest(services, config, env, path, old(Snapshot()))
    {
      ghost var t0 := Snapshot();
      var admitted := AdmitDocument(path, env);
      if admitted.Err? {
        assert Snapshot() == t0;
        return admitted.error;
      }
      ghost var t1 := t0.(docs := t0.docs + [admitted.value.1]);
      assert Snapshot() == t1;
      assert Ingest(services, config, env, path, t0) == Store(services, config, env, Basename(path), admitted.value.0, t1);
      o := StoreChunks(env, Basename(path), admitted.value.0);
    }

    /** The part of `process_document` up to the document row's insert. */
    method AdmitDocument(path: string, env: Env) returns (r: Result<(string, DocumentStore.DocumentRow), Outcome>)
      modifies documents
      ensures r == Admit(services, env, path, old(documents.rows))
      ensures r.Ok? ==> documents.rows == old(documents.rows) + [r.value.1] && r.value.1.id == env.documentId
      ensures r.Err? ==> documents.rows == old(documents.rows)
    {
      var filename := Basename(path);
      var extracted := Extraction.ExtractTextFromFile(services.readers, path);
      if extracted.Err? {
        return Err(Failed(ExtractFailed(extracted.error)));
      }
      var text := extracted.value.0;
      var hash := ContentHash.FileHash(services.md5, text);
      var existing := documents.GetDocumentByHash(hash);
      if existing.Some? {
        return Err(AlreadyExists(ExistsMessage(filename)));
      }
      var create := DocumentSchema.NewDocumentCreate(filename, path, Extraction.Tag(extracted.value.1), hash);
      var validated := DocumentSchema.ValidateCreate(create);
      if validated.Err? {
        return Err(Failed(DocumentRejected(validated.error)));
      }
      var created := documents.CreateDocument(create, env.documentId, env.documentTime, env.documentInserted);
      if created.Err? {
        return Err(Failed(DocumentInsertFailed));
      }
      r := Ok((text, created.value));
    }

    /** The part of `process_document` after the document row is written. */
    method StoreChunks(env: Env, filename: string, text: string) returns (o: Outcome)
      requires ValidConfig(config)
      requires |documents.rows| > 0 && documents.rows[|documents.rows| - 1].id == env.documentId
      modifies documents, chunks, index
      ensures (o, Snapshot()) == Store(services, config, env, filename, text, old(Snapshot()))
    {
      var pieces := Chunker.ChunkText(text, services.tok, services.estimate(text), config.maxTokens, config.overlap);
      if pieces.Err? {
        return Failed(ChunkingFailed);
      }
      o := SavePieces(env, filename, pieces.value);
    }

    /** The part of `process_document` after chunking. */
    method SavePieces(env: Env, filename: string, pieces: seq<Chunker.Piece>) returns (o: Outcome)
      requires |documents.rows| > 0 && documents.rows[|documents.rows| - 1].id == env.documentId
      modifies documents, chunks, index
      ensures (o, Snapshot()) == Save(services, env, filename, pieces, old(Snapshot()))
    {
      var documentId := env.documentId;
      var vectors, records := BuildRecords(services.embed, documentId, filename, pieces);
      UpsertInBatches(index, vectors);
      var failure := CreateChunkRows(chunks, records, env);
      if failure.Some? {
        return Failed(failure.value);
      }
      assert documents.rows[|documents.rows| - 1].id == documentId;
      var updated := documents.UpdateDocument(documentId, DocumentSchema.TotalChunksUpdate(|pieces|), env.updateTime);
      if updated.Err? {
        return Failed(InvalidDocumentId);
      }
      o := Processed(documentId, |pieces|);
    }

    /** `delete_document`. */
    method DeleteDocument(path: string) returns (o: Removal)
      modifies documents, chunks, index
      ensures (o, Snapshot()) == Remove(path, old(Snapshot()))
    {
      var found := documents.GetDocumentByFilename(Basename(path));
      assert found == ByFilename(documents.rows, Basename(path));
      if found.None? {
        return NotFound;
      }
      ghost var k :| 0 <= k < |documents.rows| && documents.rows[k] == found.value;
      o := ClearDocument(found.value.id);
    }

    /** The part of `delete_document` after the lookup, for the id of an
        existing document row. */
    method ClearDocument(documentId: string) returns (o: Removal)
      requires exists k :: 0 <= k < |documents.rows| && documents.rows[k].id == documentId
      modifies documents, chunks, index
      ensures (o, Snapshot()) == Clear(documentId, old(Snapshot()))
    {
      ghost var t0 := Snapshot();
      var ofDocument := chunks.GetChunksByDocumentId(documentId);
      if ofDocument.Err? {
        return RemoveFailed;
      }
      assert ofDocument.value == ChunkStore.OfDocument(t0.chunks, documentId);
      var ids := VectorIdsOf(ofDocument.value);
      index.Delete(ids);
      var cleared := chunks.DeleteChunksByDocumentId(documentId);
      var deleted := documents.DeleteDocument(documentId);
      assert deleted == Ok(true);
      o := Removed(documentId);
    }
  }
}
