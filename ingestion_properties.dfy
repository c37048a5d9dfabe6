/** What a run of `process_document` and of `delete_document` leaves in
    the tables: which outcomes write nothing, that the document row is
    never rolled back, what a successful run stores, what a chunk failure
    leaves behind, and that deleting a freshly ingested file restores the
    tables it started from. */
module IngestionProperties {
  import opened Wrappers
  import opened Text
  import opened Seqs
  import Ids
  import Extraction
  import ContentHash
  import Chunker
  import DocumentSchema
  import DocumentStore
  import ChunkSchema
  import ChunkStore
  import VectorIndex
  import opened Ingestion

  /** The outcomes reached before the document row is inserted. */
  predicate Early(o: Outcome) {
    o.AlreadyExists?
    || (o.Failed? && (o.failure.ExtractFailed? || o.failure.DocumentRejected? || o.failure.DocumentInsertFailed?))
  }

  /** A failure of the chunk-storing loop. */
  predicate ChunkFailure(o: Outcome) {
    o.Failed? && (o.failure.ChunkRejected? || o.failure.ChunkInsertFailed?)
  }

  /** The chunk loop fails only on a rejected record or a failed insert. */
  lemma InsertChunksFailures(records: seq<ChunkSchema.ChunkCreate>, env: Env, rows: seq<ChunkStore.ChunkRow>)
    ensures InsertChunks(records, env, 0, rows).0.Some? ==>
      var f := InsertChunks(records, env, 0, rows).0.value;
      f.ChunkRejected? || f.ChunkInsertFailed?
  {
    var j := InsertChunksShape(records, env, 0, rows);
  }

  /** The steps after the row is inserted end in success or in a failure
      of chunking, of the chunk loop, or of the final update. */
  lemma StoreOutcomes(s: Services, cfg: Config, env: Env, filename: string, text: string, t: Tables)
    requires ValidConfig(cfg)
    ensures !Early(Store(s, cfg, env, filename, text, t).0)
  {
    var p := ChunkParams(s, cfg, text);
    if Chunker.Chunks(p).Ok? {
      InsertChunksFailures(ChunkRecords(env.documentId, Chunker.Chunks(p).value), env, t.chunks);
    }
  }

  /** The steps before the row exists stop only with the early outcomes. */
  lemma AdmitOutcomes(s: Services, env: Env, path: string, docs: seq<DocumentStore.DocumentRow>)
    ensures Admit(s, env, path, docs).Err? ==> Early(Admit(s, env, path, docs).error)
    ensures Admit(s, env, path, docs).Ok? ==>
      Admit(s, env, path, docs).value.1.id == env.documentId
      && Admit(s, env, path, docs).value.1.filename == Basename(path)
      && Admit(s, env, path, docs).value.1.totalChunks == 0
    ensures Admit(s, env, path, docs).Ok? ==>
      Extraction.Extract(s.readers, path).Ok? && Extraction.Extract(s.readers, path).value.0 == Admit(s, env, path, docs).value.0
  {
    match Extraction.Extract(s.readers, path)
    case Err(e) =>
    case Ok(extracted) =>
      var hash := ContentHash.FileHash(s.md5, extracted.0);
      var create := DocumentSchema.NewDocumentCreate(Basename(path), path, Extraction.Tag(extracted.1), hash);
      if ByHash(docs, hash).None? && DocumentSchema.ValidCreate(create) && env.documentInserted {
        assert Admit(s, env, path, docs) == Ok((extracted.0, DocumentStore.NewRow(create, env.documentId, env.documentTime)));
      }
  }

  /** A run that stops before the document row exists writes nothing:
      reading fails, the content is already known, or the row is rejected
      or not inserted. A run that gets past those steps never ends with
      one of their outcomes. */
  lemma EarlyOutcomeWritesNothing(s: Services, cfg: Config, env: Env, path: string, t: Tables)
    requires ValidConfig(cfg)
    ensures Early(Ingest(s, cfg, env, path, t).0) <==> Admit(s, env, path, t.docs).Err?
    ensures Early(Ingest(s, cfg, env, path, t).0) ==> Ingest(s, cfg, env, path, t).1 == t
  {
    var a := Admit(s, env, path, t.docs);
    AdmitOutcomes(s, env, path, t.docs);
    if a.Ok? {
      StoreOutcomes(s, cfg, env, Basename(path), a.value.0, t.(docs := t.docs + [a.value.1]));
    }
  }

  /** The lookup by hash finds a row exactly when some row has that hash. */
  lemma ByHashFinds(docs: seq<DocumentStore.DocumentRow>, hash: string)
    ensures ByHash(docs, hash).Some? <==> exists k :: 0 <= k < |docs| && docs[k].fileHash == hash
    ensures ByHash(docs, hash).Some? ==> ByHash(docs, hash).value in docs && ByHash(docs, hash).value.fileHash == hash
  {
    var p := (x: DocumentStore.DocumentRow) => x.fileHash == hash;
    if ByHash(docs, hash).Some? {
      var i := FirstIndex(docs, p);
      assert p(docs[i]);
    } else {
      forall k | 0 <= k < |docs| ensures docs[k].fileHash != hash {
        assert !p(docs[k]);
      }
    }
  }

  /** The duplicate message comes exactly when the text is read and a
      document with its hash is already recorded; it names the file and
      leaves every table as it was. It is the only outcome for which
      `process_document` returns a value. */
  lemma DuplicateIffKnownHash(s: Services, cfg: Config, env: Env, path: string, t: Tables)
    requires ValidConfig(cfg)
    ensures Ingest(s, cfg, env, path, t).0.AlreadyExists? <==>
      Extraction.Extract(s.readers, path).Ok?
      && (exists k :: 0 <= k < |t.docs|
            && t.docs[k].fileHash == ContentHash.FileHash(s.md5, Extraction.Extract(s.readers, path).value.0))
    ensures Ingest(s, cfg, env, path, t).0.AlreadyExists? ==>
      Ingest(s, cfg, env, path, t) == (AlreadyExists(ExistsMessage(Basename(path))), t)
    ensures Returned(Ingest(s, cfg, env, path, t).0).Some? <==> Ingest(s, cfg, env, path, t).0.AlreadyExists?
  {
    EarlyOutcomeWritesNothing(s, cfg, env, path, t);
    var ex := Extraction.Extract(s.readers, path);
    if ex.Ok? {
      ByHashFinds(t.docs, ContentHash.FileHash(s.md5, ex.value.0));
    }
  }

  /** The storing steps keep every document row but the one with the run's
      id; that one gets the chunk count only when everything succeeds. */
  lemma StoreKeepsRow(s: Services, cfg: Config, env: Env, filename: string, text: string,
                      docs: seq<DocumentStore.DocumentRow>, row: DocumentStore.DocumentRow, t: Tables)
    requires ValidConfig(cfg)
    requires t.docs == docs + [row] && row.id == env.documentId
    requires forall k :: 0 <= k < |docs| ==> docs[k].id != env.documentId
    ensures var r := Store(s, cfg, env, filename, text, t);
      |r.1.docs| == |docs| + 1 && r.1.docs[..|docs|] == docs
      && r.1.docs[|docs|]
         == (if r.0.Processed? then DocumentStore.ApplyUpdate(row, DocumentSchema.TotalChunksUpdate(r.0.chunkCount), env.updateTime) else row)
  {
    var r := Store(s, cfg, env, filename, text, t);
    if r.0.Processed? {
      var u := DocumentSchema.TotalChunksUpdate(r.0.chunkCount);
      assert r.1.docs == DocumentStore.UpdateWhere(t.docs, env.documentId, u, env.updateTime);
      DocumentStore.UpdateWhereRows(t.docs, env.documentId, u, env.updateTime);
      assert r.1.docs[|docs|] == DocumentStore.ApplyUpdate(row, u, env.updateTime);
      forall k | 0 <= k < |docs| ensures r.1.docs[k] == docs[k] {
        assert t.docs[k] == docs[k];
      }
    } else {
      assert r.1.docs == t.docs;
    }
  }

  /** The document row is never rolled back: once inserted it stays, with
      `total_chunks` 0 after a failure and the chunk count after success,
      and the rows before it are untouched. */
  lemma DocumentRowSurvives(s: Services, cfg: Config, env: Env, path: string, t: Tables)
    requires ValidConfig(cfg)
    requires forall k :: 0 <= k < |t.docs| ==> t.docs[k].id != env.documentId
    requires !Early(Ingest(s, cfg, env, path, t).0)
    ensures var r := Ingest(s, cfg, env, path, t);
      |r.1.docs| == |t.docs| + 1 && r.1.docs[..|t.docs|] == t.docs
      && r.1.docs[|t.docs|].id == env.documentId
      && r.1.docs[|t.docs|].filename == Basename(path)
      && r.1.docs[|t.docs|].totalChunks == (if r.0.Processed? then r.0.chunkCount else 0)
  {
    var a := Admit(s, env, path, t.docs);
    EarlyOutcomeWritesNothing(s, cfg, env, path, t);
    AdmitOutcomes(s, env, path, t.docs);
    StoreKeepsRow(s, cfg, env, Basename(path), a.value.0, t.docs, a.value.1, t.(docs := t.docs + [a.value.1]));
  }

  /** What the storing steps write when every chunk is stored: one row per
      chunk after the existing rows, every vector upserted in batches of
      100, and the chunk count as the outcome. */
  lemma StoreProcessed(s: Services, cfg: Config, env: Env, filename: string, text: string, t: Tables)
    returns (pieces: seq<Chunker.Piece>)
    requires ValidConfig(cfg)
    requires Store(s, cfg, env, filename, text, t).0.Processed?
    ensures Chunker.Chunks(ChunkParams(s, cfg, text)) == Ok(pieces)
    ensures Store(s, cfg, env, filename, text, t).0 == Processed(env.documentId, |pieces|)
    ensures Ids.IsUuid(env.documentId)
    ensures |ChunkRecords(env.documentId, pieces)| == |pieces|
    ensures forall k :: 0 <= k < |pieces| ==> Accepted(ChunkRecords(env.documentId, pieces), env, k)
    ensures Store(s, cfg, env, filename, text, t).1.chunks
      == t.chunks + Created(ChunkRecords(env.documentId, pieces), env, 0, |pieces|)
    ensures Store(s, cfg, env, filename, text, t).1.vectors
      == VectorIndex.Upserted(t.vectors, VectorRecords(s.embed, env.documentId, filename, pieces))
    ensures Store(s, cfg, env, filename, text, t).1.calls
      == t.calls + UpsertCalls(Batches(VectorRecords(s.embed, env.documentId, filename, pieces)))
  {
    pieces := Chunker.Chunks(ChunkParams(s, cfg, text)).value;
    var j := InsertChunksShape(ChunkRecords(env.documentId, pieces), env, 0, t.chunks);
  }

  /** A failing chunk loop stops at the first record that is not
      accepted, having stored the ones before it. */
  lemma InsertChunksStops(records: seq<ChunkSchema.ChunkCreate>, env: Env, rows: seq<ChunkStore.ChunkRow>)
    returns (k: nat)
    requires InsertChunks(records, env, 0, rows).0.Some?
    ensures k < |records|
    ensures InsertChunks(records, env, 0, rows).0.value == FailureAt(records, env, k)
    ensures !Accepted(records, env, k) && forall i :: 0 <= i < k ==> Accepted(records, env, i)
    ensures InsertChunks(records, env, 0, rows).1 == rows + Created(records, env, 0, k)
  {
    k := InsertChunksShape(records, env, 0, rows);
    forall i | 0 <= i < k ensures Accepted(records, env, i) {
    }
  }

  /** When a chunk record is rejected or its insert fails, the loop has
      stored the chunks before it, and the upload that came first stays:
      every vector is in the index although its row may be missing. */
  lemma StoreChunkFailure(s: Services, cfg: Config, env: Env, filename: string, text: string, t: Tables)
    returns (pieces: seq<Chunker.Piece>)
    requires ValidConfig(cfg)
    requires ChunkFailure(Store(s, cfg, env, filename, text, t).0)
    ensures Chunker.Chunks(ChunkParams(s, cfg, text)) == Ok(pieces)
    ensures var k := Store(s, cfg, env, filename, text, t).0.failure.index;
      var records := ChunkRecords(env.documentId, pieces);
      k < |pieces| == |records|
      && !Accepted(records, env, k)
      && (forall i :: 0 <= i < k ==> Accepted(records, env, i))
      && Store(s, cfg, env, filename, text, t).1.chunks == t.chunks + Created(records, env, 0, k)
    ensures Store(s, cfg, env, filename, text, t).1.vectors
      == VectorIndex.Upserted(t.vectors, VectorRecords(s.embed, env.documentId, filename, pieces))
    ensures Store(s, cfg, env, filename, text, t).1.calls
      == t.calls + UpsertCalls(Batches(VectorRecords(s.embed, env.documentId, filename, pieces)))
    ensures Store(s, cfg, env, filename, text, t).1.docs == t.docs
  {
    pieces := Chunker.Chunks(ChunkParams(s, cfg, text)).value;
    var records := ChunkRecords(env.documentId, pieces);
    var inserted := InsertChunks(records, env, 0, t.chunks);
    assert inserted.0.Some?;
    var k := InsertChunksStops(records, env, t.chunks);
    assert Store(s, cfg, env, filename, text, t).0 == Failed(FailureAt(records, env, k));
  }

  /** A run past the early outcomes is the storing steps on the tables
      with the admitted row appended. */
  lemma IngestIsStore(s: Services, cfg: Config, env: Env, path: string, t: Tables)
    returns (text: string, row: DocumentStore.DocumentRow)
    requires ValidConfig(cfg)
    requires !Early(Ingest(s, cfg, env, path, t).0)
    ensures Admit(s, env, path, t.docs) == Ok((text, row))
    ensures Ingest(s, cfg, env, path, t) == Store(s, cfg, env, Basename(path), text, t.(docs := t.docs + [row]))
  {
    var a := Admit(s, env, path, t.docs);
    AdmitOutcomes(s, env, path, t.docs);
    if a.Err? {
      assert false;
    }
    text := a.value.0;
    row := a.value.1;
  }

  /** The rows the loop creates for a run's chunks, one per chunk in order. */
  lemma CreatedChunkRows(env: Env, pieces: seq<Chunker.Piece>, n: nat)
    requires n <= |pieces|
    ensures var rows := Created(ChunkRecords(env.documentId, pieces), env, 0, n);
      |rows| == n
      && forall k :: 0 <= k < n ==>
           rows[k].documentId == env.documentId && rows[k].chunkIndex == k && rows[k].content == pieces[k].text
           && rows[k].tokenCount == pieces[k].tokenCount && rows[k].vectorId == VectorId(env.documentId, k)
           && rows[k].startCharIndex == pieces[k].startChar && rows[k].endCharIndex == pieces[k].endChar
           && rows[k].id == env.chunkId(k)
  {
    var records := ChunkRecords(env.documentId, pieces);
    var rows := Created(records, env, 0, n);
    forall k | 0 <= k < n
      ensures rows[k] == ChunkStore.NewRow(ChunkRecordOf(env.documentId, k, pieces[k]), env.chunkId(k), env.chunkTime(k))
    {
      assert records[k] == ChunkRecordOf(env.documentId, k, pieces[k]);
    }
  }

  /** A run that processes the file stores every chunk: row `k` after the
      existing rows carries chunk `k`'s text, index and vector id. */
  lemma ProcessedStoresRows(s: Services, cfg: Config, env: Env, path: string, t: Tables)
    returns (text: string, pieces: seq<Chunker.Piece>)
    requires ValidConfig(cfg)
    requires Ingest(s, cfg, env, path, t).0.Processed?
    ensures Extraction.Extract(s.readers, path).Ok? && Extraction.Extract(s.readers, path).value.0 == text
    ensures Chunker.Chunks(ChunkParams(s, cfg, text)) == Ok(pieces)
    ensures Ingest(s, cfg, env, path, t).0 == Processed(env.documentId, |pieces|)
    ensures Ingest(s, cfg, env, path, t).1.chunks
      == t.chunks + Created(ChunkRecords(env.documentId, pieces), env, 0, |pieces|)
    ensures Ingest(s, cfg, env, path, t).1.vectors
      == VectorIndex.Upserted(t.vectors, VectorRecords(s.embed, env.documentId, Basename(path), pieces))
    ensures Ingest(s, cfg, env, path, t).1.calls
      == t.calls + UpsertCalls(Batches(VectorRecords(s.embed, env.documentId, Basename(path), pieces)))
    ensures Ids.IsUuid(env.documentId)
  {
    var row;
    text, row := IngestIsStore(s, cfg, env, path, t);
    AdmitOutcomes(s, env, path, t.docs);
    pieces := StoreProcessed(s, cfg, env, Basename(path), text, t.(docs := t.docs + [row]));
  }

  /** The index after a run's vectors are upserted holds chunk `k`'s
      vector under `"{document_id}_{k}"`. */
  lemma IndexedVectors(m: map<string, VectorIndex.VectorRecord>, embed: string -> seq<real>, documentId: string,
                       filename: string, pieces: seq<Chunker.Piece>)
    ensures var r := VectorIndex.Upserted(m, VectorRecords(embed, documentId, filename, pieces));
      forall k :: 0 <= k < |pieces| ==>
        VectorId(documentId, k) in r && r[VectorId(documentId, k)] == VectorRecordOf(embed, documentId, filename, k, pieces[k])
  {
    var vs := VectorRecords(embed, documentId, filename, pieces);
    var r := VectorIndex.Upserted(m, vs);
    VectorIdsDistinct(embed, documentId, filename, pieces);
    VectorIndex.UpsertedDistinct(m, vs);
    forall k | 0 <= k < |pieces|
      ensures VectorId(documentId, k) in r && r[VectorId(documentId, k)] == VectorRecordOf(embed, documentId, filename, k, pieces[k])
    {
      assert vs[k] == VectorRecordOf(embed, documentId, filename, k, pieces[k]);
      assert vs[k].id == VectorId(documentId, k);
    }
  }

  /** A processed run appends one row per chunk to the chunk table, row
      `k` carrying chunk `k`'s text, index and vector id, and leaves chunk
      `k`'s vector in the index under that id. */
  lemma ProcessedStoresEverything(s: Services, cfg: Config, env: Env, path: string, t: Tables)
    returns (text: string, pieces: seq<Chunker.Piece>, rows: seq<ChunkStore.ChunkRow>)
    requires ValidConfig(cfg)
    requires Ingest(s, cfg, env, path, t).0.Processed?
    ensures Extraction.Extract(s.readers, path).Ok? && Extraction.Extract(s.readers, path).value.0 == text
    ensures Chunker.Chunks(ChunkParams(s, cfg, text)) == Ok(pieces)
    ensures Ingest(s, cfg, env, path, t).0 == Processed(env.documentId, |pieces|)
    ensures Ingest(s, cfg, env, path, t).1.chunks == t.chunks + rows
    ensures |rows| == |pieces|
    ensures forall k :: 0 <= k < |pieces| ==>
      rows[k].documentId == env.documentId && rows[k].chunkIndex == k && rows[k].content == pieces[k].text
      && rows[k].tokenCount == pieces[k].tokenCount && rows[k].vectorId == VectorId(env.documentId, k)
      && rows[k].startCharIndex == pieces[k].startChar && rows[k].endCharIndex == pieces[k].endChar
    ensures forall k :: 0 <= k < |pieces| ==>
      VectorId(env.documentId, k) in Ingest(s, cfg, env, path, t).1.vectors
      && Ingest(s, cfg, env, path, t).1.vectors[VectorId(env.documentId, k)]
         == VectorRecordOf(s.embed, env.documentId, Basename(path), k, pieces[k])
  {
    text, pieces := ProcessedStoresRows(s, cfg, env, path, t);
    rows := Created(ChunkRecords(env.documentId, pieces), env, 0, |pieces|);
    CreatedChunkRows(env, pieces, |pieces|);
    IndexedVectors(t.vectors, s.embed, env.documentId, Basename(path), pieces);
  }

  /** A chunk that fails to store leaves the chunk rows before it and
      every vector in the index: nothing already written is undone. */
  lemma ChunkFailureKeepsUpload(s: Services, cfg: Config, env: Env, path: string, t: Tables)
    returns (text: string, pieces: seq<Chunker.Piece>)
    requires ValidConfig(cfg)
    requires ChunkFailure(Ingest(s, cfg, env, path, t).0)
    ensures Extraction.Extract(s.readers, path).Ok? && Extraction.Extract(s.readers, path).value.0 == text
    ensures Chunker.Chunks(ChunkParams(s, cfg, text)) == Ok(pieces)
    ensures var k := Ingest(s, cfg, env, path, t).0.failure.index;
      var records := ChunkRecords(env.documentId, pieces);
      k < |pieces| == |records|
      && !Accepted(records, env, k)
      && (forall i :: 0 <= i < k ==> Accepted(records, env, i))
      && Ingest(s, cfg, env, path, t).1.chunks == t.chunks + Created(records, env, 0, k)
    ensures Ingest(s, cfg, env, path, t).1.vectors
      == VectorIndex.Upserted(t.vectors, VectorRecords(s.embed, env.documentId, Basename(path), pieces))
  {
    var row;
    text, row := IngestIsStore(s, cfg, env, path, t);
    AdmitOutcomes(s, env, path, t.docs);
    ghost var t1 := t.(docs := t.docs + [row]);
    assert t1.chunks == t.chunks && t1.vectors == t.vectors;
    pieces := StoreChunkFailure(s, cfg, env, Basename(path), text, t1);
  }

  // ---------------------------------------------------------------------
  // Deleting a document

  /** The lookup by file name finds a row exactly when some row has that name. */
  lemma ByFilenameFinds(docs: seq<DocumentStore.DocumentRow>, name: string)
    ensures ByFilename(docs, name).Some? <==> exists k :: 0 <= k < |docs| && docs[k].filename == name
    ensures ByFilename(docs, name).Some? ==> ByFilename(docs, name).value in docs && ByFilename(docs, name).value.filename == name
  {
    var p := (x: DocumentStore.DocumentRow) => x.filename == name;
    if ByFilename(docs, name).Some? {
      var i := FirstIndex(docs, p);
      assert p(docs[i]);
    } else {
      forall k | 0 <= k < |docs| ensures docs[k].filename != name {
        assert !p(docs[k]);
      }
    }
  }

  /** Deleting a file no document row is named after changes nothing, and
      neither does a row whose id is not a UUID: the chunk lookup raises
      before anything is deleted. */
  lemma RemoveNotFound(path: string, t: Tables)
    ensures Remove(path, t).0 == NotFound <==> forall k :: 0 <= k < |t.docs| ==> t.docs[k].filename != Basename(path)
    ensures !Remove(path, t).0.Removed? ==> Remove(path, t).1 == t
  {
    ByFilenameFinds(t.docs, Basename(path));
    match ByFilename(t.docs, Basename(path))
    case None =>
    case Some(d) =>
      assert Remove(path, t) == Clear(d.id, t);
  }

  /** The ids `VectorIdsOf` collects are those of the rows given. */
  lemma VectorIdsOfMembers(rows: seq<ChunkStore.ChunkRow>)
    ensures forall v :: v in VectorIdsOf(rows) <==> exists c :: c in rows && c.vectorId == v
  {
    var ids := VectorIdsOf(rows);
    forall v | v in ids ensures exists c :: c in rows && c.vectorId == v {
      var k :| 0 <= k < |ids| && ids[k] == v;
      assert rows[k] in rows;
    }
    forall c | c in rows ensures c.vectorId in ids {
      var k :| 0 <= k < |rows| && rows[k] == c;
      assert ids[k] == c.vectorId;
    }
  }

  /** Deleting a file removes the first document row with its base name,
      every chunk row of that document and their vectors; other rows and
      vectors stay, and the index receives one delete request carrying the
      document's vector ids in `chunk_index` order. */
  lemma RemoveClears(path: string, t: Tables) returns (d: string, mine: seq<ChunkStore.ChunkRow>)
    requires Remove(path, t).0.Removed?
    ensures Remove(path, t).0 == Removed(d) && Ids.IsUuid(d)
    ensures ByFilename(t.docs, Basename(path)).Some? && ByFilename(t.docs, Basename(path)).value.id == d
    ensures forall r :: r in Remove(path, t).1.docs <==> r in t.docs && r.id != d
    ensures forall c :: c in Remove(path, t).1.chunks <==> c in t.chunks && c.documentId != d
    ensures forall c :: c in mine <==> c in t.chunks && c.documentId == d
    ensures forall i, j :: 0 <= i < j < |mine| ==> mine[i].chunkIndex <= mine[j].chunkIndex
    ensures Remove(path, t).1.calls == t.calls + [VectorIndex.DeleteCall(VectorIdsOf(mine))]
    ensures forall v :: v in VectorIdsOf(mine) <==> exists c :: c in mine && c.vectorId == v
    ensures forall v :: v in Remove(path, t).1.vectors <==> v in t.vectors && v !in VectorIdsOf(mine)
    ensures forall v :: v in Remove(path, t).1.vectors ==> Remove(path, t).1.vectors[v] == t.vectors[v]
  {
    d := ByFilename(t.docs, Basename(path)).value.id;
    mine := ChunkStore.OfDocument(t.chunks, d);
    ChunkStore.OfDocumentMembers(t.chunks, d);
    ChunkStore.DeleteWhereDocumentMembers(t.chunks, d);
    VectorIdsOfMembers(mine);
    DocumentStore.DeleteWhereMembers(t.docs, d);
    VectorIndex.DeletedEntries(t.vectors, VectorIdsOf(mine));
  }

  /** `DELETE … WHERE id = d` after a row with id `d` was appended to rows
      without it gives back those rows. */
  lemma DeleteAppendedRow(docs: seq<DocumentStore.DocumentRow>, row: DocumentStore.DocumentRow)
    requires forall k :: 0 <= k < |docs| ==> docs[k].id != row.id
    ensures DocumentStore.DeleteWhere(docs + [row], row.id) == docs
  {
    var keep := (x: DocumentStore.DocumentRow) => x.id != row.id;
    FilterConcat(docs, [row], keep);
    FilterAll(docs, keep);
    FilterNone([row], keep);
  }

  /** Dropping a document's chunk rows after they were appended to rows of
      other documents gives back those rows. */
  lemma DropAppendedChunks(chunks: seq<ChunkStore.ChunkRow>, rows: seq<ChunkStore.ChunkRow>, d: string)
    requires forall c :: c in chunks ==> c.documentId != d
    requires forall k :: 0 <= k < |rows| ==> rows[k].documentId == d
    ensures ChunkStore.DeleteWhereDocument(chunks + rows, d) == chunks
  {
    var keep := (x: ChunkStore.ChunkRow) => x.documentId != d;
    FilterConcat(chunks, rows, keep);
    forall k | 0 <= k < |chunks| ensures keep(chunks[k]) {
      assert chunks[k] in chunks;
    }
    FilterAll(chunks, keep);
    FilterNone(rows, keep);
  }

  /** The lookup by name finds a row appended after rows of other names. */
  lemma FindsAppended(docs: seq<DocumentStore.DocumentRow>, row: DocumentStore.DocumentRow, name: string)
    requires row.filename == name
    requires forall k :: 0 <= k < |docs| ==> docs[k].filename != name
    ensures ByFilename(docs + [row], name) == Some(row)
  {
    var p := (x: DocumentStore.DocumentRow) => x.filename == name;
    var all := docs + [row];
    assert p(all[|docs|]);
    forall k | 0 <= k < |docs| ensures !p(all[k]) {
      assert all[k] == docs[k];
    }
    assert FirstIndex(all, p) == |docs|;
  }

  /** The ids a delete collects for a document whose rows were appended to
      rows of other documents are exactly its vectors' ids, so none of them
      was in an index that held none of those. */
  lemma AppendedIds(chunks: seq<ChunkStore.ChunkRow>, rows: seq<ChunkStore.ChunkRow>, d: string,
                    vs: seq<VectorIndex.VectorRecord>, m: map<string, VectorIndex.VectorRecord>)
    requires forall c :: c in chunks ==> c.documentId != d
    requires |vs| == |rows|
    requires forall k :: 0 <= k < |rows| ==> rows[k].documentId == d && rows[k].vectorId == vs[k].id && vs[k].id !in m
    ensures var ids := VectorIdsOf(ChunkStore.OfDocument(chunks + rows, d));
      (forall k :: 0 <= k < |vs| ==> vs[k].id in ids) && (forall id :: id in ids ==> id !in m)
  {
    var all := chunks + rows;
    var mine := ChunkStore.OfDocument(all, d);
    var ids := VectorIdsOf(mine);
    ChunkStore.OfDocumentMembers(all, d);
    VectorIdsOfMembers(mine);
    forall k | 0 <= k < |vs| ensures vs[k].id in ids {
      assert all[|chunks| + k] == rows[k];
      assert rows[k] in mine;
    }
    forall c | c in all && c.documentId == d ensures c.vectorId !in m {
      var i :| 0 <= i < |all| && all[i] == c;
      if i >= |chunks| {
        assert c == rows[i - |chunks|];
      } else {
        assert all[i] == chunks[i];
      }
    }
  }

  /** Deleting the file of a document whose row, chunk rows and vectors
      were appended to tables that held none of them gives those tables
      back. */
  lemma RemoveAppended(path: string, t: Tables, t1: Tables, row: DocumentStore.DocumentRow,
                       rows: seq<ChunkStore.ChunkRow>, vs: seq<VectorIndex.VectorRecord>)
    requires Ids.IsUuid(row.id) && row.filename == Basename(path)
    requires forall k :: 0 <= k < |t.docs| ==> t.docs[k].id != row.id && t.docs[k].filename != Basename(path)
    requires forall c :: c in t.chunks ==> c.documentId != row.id
    requires |vs| == |rows|
    requires forall k :: 0 <= k < |rows| ==>
      rows[k].documentId == row.id && rows[k].vectorId == vs[k].id && vs[k].id !in t.vectors
    requires t1.docs == t.docs + [row] && t1.chunks == t.chunks + rows
    requires t1.vectors == VectorIndex.Upserted(t.vectors, vs)
    ensures Remove(path, t1).0 == Removed(row.id)
    ensures Remove(path, t1).1.docs == t.docs && Remove(path, t1).1.chunks == t.chunks
    ensures Remove(path, t1).1.vectors == t.vectors
  {
    FindsAppended(t.docs, row, Basename(path));
    DeleteAppendedRow(t.docs, row);
    DropAppendedChunks(t.chunks, rows, row.id);
    AppendedIds(t.chunks, rows, row.id, vs, t.vectors);
    VectorIndex.DeleteUndoesUpsert(t.vectors, vs, VectorIdsOf(ChunkStore.OfDocument(t1.chunks, row.id)));
  }

  /** Chunk `k`'s row and chunk `k`'s vector name the same vector id,
      `"{document_id}_{k}"`. */
  lemma RowsMatchVectors(env: Env, embed: string -> seq<real>, filename: string, pieces: seq<Chunker.Piece>)
    ensures var rows := Created(ChunkRecords(env.documentId, pieces), env, 0, |pieces|);
      var vs := VectorRecords(embed, env.documentId, filename, pieces);
      |vs| == |rows|
      && forall k :: 0 <= k < |rows| ==>
           rows[k].documentId == env.documentId && rows[k].vectorId == vs[k].id && vs[k].id == VectorId(env.documentId, k)
  {
    var vs := VectorRecords(embed, env.documentId, filename, pieces);
    CreatedChunkRows(env, pieces, |pieces|);
    forall k | 0 <= k < |pieces| ensures vs[k].id == VectorId(env.documentId, k) {
      assert vs[k] == VectorRecordOf(embed, env.documentId, filename, k, pieces[k]);
    }
  }

  /** The storing steps of a processed run append one chunk row and one
      vector per chunk, paired by vector id. */
  lemma StoreAppends(s: Services, cfg: Config, env: Env, filename: string, text: string, t: Tables)
    returns (rows: seq<ChunkStore.ChunkRow>, vs: seq<VectorIndex.VectorRecord>)
    requires ValidConfig(cfg)
    requires Store(s, cfg, env, filename, text, t).0.Processed?
    ensures Store(s, cfg, env, filename, text, t).1.chunks == t.chunks + rows
    ensures Store(s, cfg, env, filename, text, t).1.vectors == VectorIndex.Upserted(t.vectors, vs)
    ensures Ids.IsUuid(env.documentId)
    ensures |vs| == |rows|
    ensures forall k :: 0 <= k < |rows| ==>
      rows[k].documentId == env.documentId && rows[k].vectorId == vs[k].id && vs[k].id == VectorId(env.documentId, k)
  {
    var pieces := StoreProcessed(s, cfg, env, filename, text, t);
    rows := Created(ChunkRecords(env.documentId, pieces), env, 0, |pieces|);
    vs := VectorRecords(s.embed, env.documentId, filename, pieces);
    RowsMatchVectors(env, s.embed, filename, pieces);
  }

  /** A run past the early outcomes appends its document row after the
      rows that were there. */
  lemma AppendedRow(s: Services, cfg: Config, env: Env, path: string, t: Tables) returns (row: DocumentStore.DocumentRow)
    requires ValidConfig(cfg)
    requires !Early(Ingest(s, cfg, env, path, t).0)
    requires forall k :: 0 <= k < |t.docs| ==> t.docs[k].id != env.documentId
    ensures Ingest(s, cfg, env, path, t).1.docs == t.docs + [row]
    ensures row.id == env.documentId && row.filename == Basename(path)
  {
    DocumentRowSurvives(s, cfg, env, path, t);
    var docs := Ingest(s, cfg, env, path, t).1.docs;
    row := docs[|t.docs|];
    assert docs == docs[..|t.docs|] + [row];
  }

  /** A processed run appends one document row, one chunk row per chunk
      and one vector per chunk, the row and vector of chunk `k` sharing the
      id `"{document_id}_{k}"`. */
  lemma ProcessedAppends(s: Services, cfg: Config, env: Env, path: string, t: Tables)
    returns (row: DocumentStore.DocumentRow, rows: seq<ChunkStore.ChunkRow>, vs: seq<VectorIndex.VectorRecord>)
    requires ValidConfig(cfg)
    requires Ingest(s, cfg, env, path, t).0.Processed?
    requires forall k :: 0 <= k < |t.docs| ==> t.docs[k].id != env.documentId
    ensures var t1 := Ingest(s, cfg, env, path, t).1;
      t1.docs == t.docs + [row] && t1.chunks == t.chunks + rows && t1.vectors == VectorIndex.Upserted(t.vectors, vs)
    ensures row.id == env.documentId && row.filename == Basename(path) && Ids.IsUuid(row.id)
    ensures |vs| == |rows|
    ensures forall k :: 0 <= k < |rows| ==>
      rows[k].documentId == env.documentId && rows[k].vectorId == vs[k].id && vs[k].id == VectorId(env.documentId, k)
  {
    var text, admitted := IngestIsStore(s, cfg, env, path, t);
    rows, vs := StoreAppends(s, cfg, env, Basename(path), text, t.(docs := t.docs + [admitted]));
    row := AppendedRow(s, cfg, env, path, t);
  }

  /** Deleting a freshly ingested file gives back the document rows, chunk
      rows and vectors the tables held before it was ingested; only the
      index's request log keeps a trace, one upsert per batch and one
      delete. */
  lemma IngestThenRemove(s: Services, cfg: Config, env: Env, path: string, t: Tables)
    requires ValidConfig(cfg)
    requires Ingest(s, cfg, env, path, t).0.Processed?
    requires forall k :: 0 <= k < |t.docs| ==> t.docs[k].id != env.documentId && t.docs[k].filename != Basename(path)
    requires forall c :: c in t.chunks ==> c.documentId != env.documentId
    requires forall i: nat :: VectorId(env.documentId, i) !in t.vectors
    ensures Remove(path, Ingest(s, cfg, env, path, t).1).0 == Removed(env.documentId)
    ensures Remove(path, Ingest(s, cfg, env, path, t).1).1.docs == t.docs
    ensures Remove(path, Ingest(s, cfg, env, path, t).1).1.chunks == t.chunks
    ensures Remove(path, Ingest(s, cfg, env, path, t).1).1.vectors == t.vectors
  {
    var row, rows, vs := ProcessedAppends(s, cfg, env, path, t);
    forall k | 0 <= k < |rows| ensures vs[k].id !in t.vectors {
      assert vs[k].id == VectorId(env.documentId, k);
    }
    RemoveAppended(path, t, Ingest(s, cfg, env, path, t).1, row, rows, vs);
  }
}
