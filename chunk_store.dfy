/** The `chunks` table and the service over it. Like the documents table it
    is kept in insertion order; ids and timestamps are inputs. The join
    with the documents table reads that table's rows. */
module ChunkStore {
  import opened Wrappers
  import opened Seqs
  import Ids
  import ChunkSchema
  import DocumentStore

  datatype ChunkRow = ChunkRow(
    id: string,
    documentId: string,
    chunkIndex: int,
    content: string,
    tokenCount: int,
    startCharIndex: int,
    endCharIndex: int,
    vectorId: string,
    createdAt: int,
    updatedAt: int)

  datatype StoreError = InvalidId | InsertFailed

  /** The row `create_chunk` inserts: all seven fields of the record. */
  function NewRow(data: ChunkSchema.ChunkCreate, id: string, now: int): (row: ChunkRow)
    ensures row.id == id && row.createdAt == now && row.updatedAt == now
    ensures row.documentId == data.documentId && row.chunkIndex == data.chunkIndex
    ensures row.content == data.content && row.tokenCount == data.tokenCount
    ensures row.startCharIndex == data.startCharIndex && row.endCharIndex == data.endCharIndex
    ensures row.vectorId == data.vectorId
  {
    ChunkRow(id, data.documentId, data.chunkIndex, data.content, data.tokenCount,
             data.startCharIndex, data.endCharIndex, data.vectorId, now, now)
  }

  /** The fields a partial update writes: each supplied field, plus `updated_at`. */
  function ApplyUpdate(row: ChunkRow, u: ChunkSchema.ChunkUpdate, now: int): (r: ChunkRow)
    ensures r.id == row.id && r.createdAt == row.createdAt && r.updatedAt == now
    ensures r.documentId == (if u.documentId.Some? then u.documentId.value else row.documentId)
    ensures r.chunkIndex == (if u.chunkIndex.Some? then u.chunkIndex.value else row.chunkIndex)
    ensures r.content == (if u.content.Some? then u.content.value else row.content)
    ensures r.tokenCount == (if u.tokenCount.Some? then u.tokenCount.value else row.tokenCount)
    ensures r.startCharIndex == (if u.startCharIndex.Some? then u.startCharIndex.value else row.startCharIndex)
    ensures r.endCharIndex == (if u.endCharIndex.Some? then u.endCharIndex.value else row.endCharIndex)
    ensures r.vectorId == (if u.vectorId.Some? then u.vectorId.value else row.vectorId)
  {
    var r := row.(updatedAt := now);
    var r := if u.documentId.Some? then r.(documentId := u.documentId.value) else r;
    var r := if u.chunkIndex.Some? then r.(chunkIndex := u.chunkIndex.value) else r;
    var r := if u.content.Some? then r.(content := u.content.value) else r;
    var r := if u.tokenCount.Some? then r.(tokenCount := u.tokenCount.value) else r;
    var r := if u.startCharIndex.Some? then r.(startCharIndex := u.startCharIndex.value) else r;
    var r := if u.endCharIndex.Some? then r.(endCharIndex := u.endCharIndex.value) else r;
    if u.vectorId.Some? then r.(vectorId := u.vectorId.value) else r
  }

  /** An update with no fields only moves the timestamp. */
  lemma EmptyUpdateOnlyTouchesTimestamp(row: ChunkRow, now: int)
    ensures ApplyUpdate(row, ChunkSchema.EmptyUpdate, now) == row.(updatedAt := now)
  {
  }

  /** Re-applying an update changes nothing but the timestamp. */
  lemma ApplyUpdateIdempotent(row: ChunkRow, u: ChunkSchema.ChunkUpdate, t1: int, t2: int)
    ensures ApplyUpdate(ApplyUpdate(row, u, t1), u, t2) == ApplyUpdate(row, u, t2)
  {
  }

  function UpdateWhere(rows: seq<ChunkRow>, id: string, u: ChunkSchema.ChunkUpdate, now: int): seq<ChunkRow> {
    seq(|rows|, k requires 0 <= k < |rows| => if rows[k].id == id then ApplyUpdate(rows[k], u, now) else rows[k])
  }

  /** The update keeps the table's length and order, rewrites the rows
      with the id and leaves the others as they were. */
  lemma UpdateWhereRows(rows: seq<ChunkRow>, id: string, u: ChunkSchema.ChunkUpdate, now: int)
    ensures |UpdateWhere(rows, id, u, now)| == |rows|
    ensures forall k :: 0 <= k < |rows| && rows[k].id != id ==> UpdateWhere(rows, id, u, now)[k] == rows[k]
    ensures forall k :: 0 <= k < |rows| && rows[k].id == id ==> UpdateWhere(rows, id, u, now)[k] == ApplyUpdate(rows[k], u, now)
  {
  }

  /** A chunk row paired with its parent document, `None` when the join finds none. */
  datatype Joined = Joined(chunk: ChunkRow, document: Option<DocumentStore.DocumentRow>)

  /** The `documents(*)` embedding: the document row the chunk's foreign key names. */
  function Parent(docs: seq<DocumentStore.DocumentRow>, c: ChunkRow): (d: Option<DocumentStore.DocumentRow>)
    ensures d.Some? <==> exists k :: 0 <= k < |docs| && docs[k].id == c.documentId
    ensures d.Some? ==> d.value in docs && d.value.id == c.documentId
  {
    First(docs, (x: DocumentStore.DocumentRow) => x.id == c.documentId)
  }

  predicate ChunkOrder(a: ChunkRow, b: ChunkRow) { a.chunkIndex <= b.chunkIndex }

  /** The rows of one document ordered by `chunk_index`, ties in table order. */
  function OfDocument(rows: seq<ChunkRow>, documentId: string): seq<ChunkRow> {
    SortBy(Filter(rows, (x: ChunkRow) => x.documentId == documentId), (a: ChunkRow, b: ChunkRow) => ChunkOrder(a, b))
  }

  /** `DELETE … WHERE document_id = documentId`. */
  function DeleteWhereDocument(rows: seq<ChunkRow>, documentId: string): seq<ChunkRow> {
    Filter(rows, (x: ChunkRow) => x.documentId != documentId)
  }

  /** The rows left are exactly the rows of other documents. */
  lemma DeleteWhereDocumentMembers(rows: seq<ChunkRow>, documentId: string)
    ensures forall c :: c in DeleteWhereDocument(rows, documentId) <==> c in rows && c.documentId != documentId
  {
    FilterMembers(rows, (x: ChunkRow) => x.documentId != documentId);
  }

  /** Exactly the document's rows, in `chunk_index` order. */
  lemma OfDocumentMembers(rows: seq<ChunkRow>, documentId: string)
    ensures forall c :: c in OfDocument(rows, documentId) <==> c in rows && c.documentId == documentId
    ensures multiset(OfDocument(rows, documentId)) == multiset(Filter(rows, (x: ChunkRow) => x.documentId == documentId))
    ensures forall i, j :: 0 <= i < j < |OfDocument(rows, documentId)| ==>
              OfDocument(rows, documentId)[i].chunkIndex <= OfDocument(rows, documentId)[j].chunkIndex
  {
    var ofDocument := (x: ChunkRow) => x.documentId == documentId;
    var mine := Filter(rows, ofDocument);
    FilterMembers(rows, ofDocument);
    var le := (a: ChunkRow, b: ChunkRow) => ChunkOrder(a, b);
    SortBySorted(mine, le);
    SortByMembers(mine, le);
  }

  class ChunkService {
    var rows: seq<ChunkRow>

    constructor ()
      ensures rows == []
    {
      rows := [];
    }

    /** `create_chunk`: inserts the row and returns it; `inserted` says
        whether the insert came back with the row. */
    method CreateChunk(data: ChunkSchema.ChunkCreate, freshId: string, now: int, inserted: bool)
      returns (r: Result<ChunkRow, StoreError>)
      modifies this
      ensures inserted ==> r == Ok(NewRow(data, freshId, now)) && rows == old(rows) + [r.value]
      ensures !inserted ==> r == Err(InsertFailed) && rows == old(rows)
    {
      if !inserted {
        return Err(InsertFailed);
      }
      var row := NewRow(data, freshId, now);
      rows := rows + [row];
      r := Ok(row);
    }

    /** `get_chunk_by_id`: format check first, then the first row with that id. */
    function GetChunkById(id: string): (r: Result<Option<ChunkRow>, StoreError>)
      reads this
      ensures !Ids.IsUuid(id) <==> r == Err(InvalidId)
      ensures r.Ok? ==> (r.value.Some? <==> exists k :: 0 <= k < |rows| && rows[k].id == id)
      ensures r.Ok? && r.value.Some? ==> r.value.value in rows && r.value.value.id == id
    {
      if !Ids.IsUuid(id) then Err(InvalidId)
      else Ok(First(rows, (x: ChunkRow) => x.id == id))
    }

    /** `get_chunk_by_vector_id`: the first row with that vector id; no format check. */
    function GetChunkByVectorId(vectorId: string): (r: Option<ChunkRow>)
      reads this
      ensures r.Some? <==> exists k :: 0 <= k < |rows| && rows[k].vectorId == vectorId
      ensures r.Some? ==> r.value in rows && r.value.vectorId == vectorId
    {
      First(rows, (x: ChunkRow) => x.vectorId == vectorId)
    }

    /** `get_chunks_by_vector_ids`: every row whose vector id is listed, in
        table order, each joined with its document; `None`, not an empty
        list, when no row matches. No format check. */
    function GetChunksByVectorIds(vectorIds: seq<string>, docs: seq<DocumentStore.DocumentRow>)
      : (r: Option<seq<Joined>>)
      reads this
      ensures r.None? <==> forall k :: 0 <= k < |rows| ==> rows[k].vectorId !in vectorIds
      ensures r.Some? ==> |r.value| > 0
      ensures r.Some? ==> forall j :: 0 <= j < |r.value| ==>
                r.value[j].chunk in rows && r.value[j].chunk.vectorId in vectorIds
                && r.value[j].document == Parent(docs, r.value[j].chunk)
      ensures r.Some? ==> forall c :: c in rows && c.vectorId in vectorIds ==>
                exists j :: 0 <= j < |r.value| && r.value[j].chunk == c
    {
      var listed := (x: ChunkRow) => x.vectorId in vectorIds;
      var hits := Filter(rows, listed);
      FilterMembers(rows, listed);
      if |hits| == 0 then
        assert forall k :: 0 <= k < |rows| ==> rows[k] !in hits;
        None
      else
        assert hits[0] in rows && hits[0].vectorId in vectorIds;
        var joined := seq(|hits|, j requires 0 <= j < |hits| => Joined(hits[j], Parent(docs, hits[j])));
        assert forall c :: c in rows && c.vectorId in vectorIds ==> exists j :: 0 <= j < |joined| && joined[j].chunk == c by {
          forall c | c in rows && c.vectorId in vectorIds
            ensures exists j :: 0 <= j < |joined| && joined[j].chunk == c
          {
            assert c in hits;
            var j :| 0 <= j < |hits| && hits[j] == c;
            assert joined[j].chunk == c;
          }
        }
        Some(joined)
    }

    /** `get_chunks_by_document_id`: format check, then that document's
        rows ordered by `chunk_index` (ties in table order). */
    function GetChunksByDocumentId(documentId: string): (r: Result<seq<ChunkRow>, StoreError>)
      reads this
      ensures !Ids.IsUuid(documentId) <==> r == Err(InvalidId)
      ensures r.Ok? ==> multiset(r.value) == multiset(Filter(rows, (x: ChunkRow) => x.documentId == documentId))
      ensures r.Ok? ==> forall c :: c in r.value <==> c in rows && c.documentId == documentId
      ensures r.Ok? ==> forall i, j :: 0 <= i < j < |r.value| ==> r.value[i].chunkIndex <= r.value[j].chunkIndex
    {
      if !Ids.IsUuid(documentId) then Err(InvalidId)
      else
        OfDocumentMembers(rows, documentId);
        Ok(OfDocument(rows, documentId))
    }

    /** `update_chunk`: format check, `None` for an absent id, otherwise the
        supplied fields and `updated_at` rewritten on the matching rows. */
    method UpdateChunk(id: string, u: ChunkSchema.ChunkUpdate, now: int)
      returns (r: Result<Option<ChunkRow>, StoreError>)
      modifies this
      ensures !Ids.IsUuid(id) ==> r == Err(InvalidId) && rows == old(rows)
      ensures Ids.IsUuid(id) && old(GetChunkById(id)) == Ok(None) ==> r == Ok(None) && rows == old(rows)
      ensures Ids.IsUuid(id) && old(GetChunkById(id)).Ok? && old(GetChunkById(id)).value.Some? ==>
                r == Ok(Some(ApplyUpdate(old(GetChunkById(id)).value.value, u, now)))
                && rows == UpdateWhere(old(rows), id, u, now)
    {
      var existing := GetChunkById(id);
      if existing.Err? {
        return Err(InvalidId);
      }
      if existing.value.None? {
        return Ok(None);
      }
      rows := UpdateWhere(rows, id, u, now);
      r := Ok(Some(ApplyUpdate(existing.value.value, u, now)));
    }

    /** `delete_chunk`: format check, `False` for an absent id, otherwise
        the row removed and `True`. */
    method DeleteChunk(id: string) returns (r: Result<bool, StoreError>)
      modifies this
      ensures !Ids.IsUuid(id) ==> r == Err(InvalidId) && rows == old(rows)
      ensures Ids.IsUuid(id) ==> r == Ok(exists k :: 0 <= k < |old(rows)| && old(rows)[k].id == id)
      ensures r == Ok(false) ==> rows == old(rows)
      ensures r == Ok(true) ==> rows == Filter(old(rows), (x: ChunkRow) => x.id != id)
    {
      var existing := GetChunkById(id);
      if existing.Err? {
        return Err(InvalidId);
      }
      if existing.value.None? {
        return Ok(false);
      }
      rows := Filter(rows, (x: ChunkRow) => x.id != id);
      r := Ok(true);
    }

    /** `delete_chunks_by_document_id`: format check, then every row of the
        document removed; `True` whether or not there were any. */
    method DeleteChunksByDocumentId(documentId: string) returns (r: Result<bool, StoreError>)
      modifies this
      ensures !Ids.IsUuid(documentId) ==> r == Err(InvalidId) && rows == old(rows)
      ensures Ids.IsUuid(documentId) ==>
                (r == Ok(true) && rows == DeleteWhereDocument(old(rows), documentId))
    {
      if !Ids.IsUuid(documentId) {
        return Err(InvalidId);
      }
      rows := DeleteWhereDocument(rows, documentId);
      r := Ok(true);
    }
  }
}
