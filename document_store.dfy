/** The `documents` table and the service over it. The table is kept in
    insertion order; the ids and timestamps a row receives are inputs. */
module DocumentStore {
  import opened Wrappers
  import opened Seqs
  import Ids
  import DocumentSchema

  datatype DocumentRow = DocumentRow(
    id: string,
    filename: string,
    filePath: Option<string>,
    fileType: string,
    fileHash: string,
    totalChunks: int,
    createdAt: int,
    updatedAt: int)

  datatype StoreError = InvalidId | InsertFailed

  /** The row `create_document` inserts: the four fields of the record, a
      fresh id, both timestamps from the clock, and no file path. */
  function NewRow(data: DocumentSchema.DocumentCreate, id: string, now: int): (row: DocumentRow)
    ensures row.id == id && row.filePath == None
    ensures row.filename == data.filename && row.fileType == data.fileType
    ensures row.fileHash == data.fileHash && row.totalChunks == data.totalChunks
    ensures row.createdAt == now && row.updatedAt == now
  {
    DocumentRow(id, data.filename, None, data.fileType, data.fileHash, data.totalChunks, now, now)
  }

  /** The fields a partial update writes: each supplied field, plus `updated_at`. */
  function ApplyUpdate(row: DocumentRow, u: DocumentSchema.DocumentUpdate, now: int): (r: DocumentRow)
    ensures r.id == row.id && r.filePath == row.filePath && r.createdAt == row.createdAt
    ensures r.updatedAt == now
    ensures u.filename.None? ==> r.filename == row.filename
    ensures u.filename.Some? ==> r.filename == u.filename.value
    ensures u.fileType.None? ==> r.fileType == row.fileType
    ensures u.fileType.Some? ==> r.fileType == u.fileType.value
    ensures u.fileHash.None? ==> r.fileHash == row.fileHash
    ensures u.fileHash.Some? ==> r.fileHash == u.fileHash.value
    ensures u.totalChunks.None? ==> r.totalChunks == row.totalChunks
    ensures u.totalChunks.Some? ==> r.totalChunks == u.totalChunks.value
  {
    var r := row.(updatedAt := now);
    var r := if u.filename.Some? then r.(filename := u.filename.value) else r;
    var r := if u.fileType.Some? then r.(fileType := u.fileType.value) else r;
    var r := if u.fileHash.Some? then r.(fileHash := u.fileHash.value) else r;
    if u.totalChunks.Some? then r.(totalChunks := u.totalChunks.value) else r
  }

  /** Re-applying an update changes nothing but the timestamp. */
  lemma ApplyUpdateIdempotent(row: DocumentRow, u: DocumentSchema.DocumentUpdate, t1: int, t2: int)
    ensures ApplyUpdate(ApplyUpdate(row, u, t1), u, t2) == ApplyUpdate(row, u, t2)
  {
  }

  /** `UPDATE … WHERE id = id`: every row with that id rewritten, the others kept. */
  function UpdateWhere(rows: seq<DocumentRow>, id: string, u: DocumentSchema.DocumentUpdate, now: int): seq<DocumentRow> {
    seq(|rows|, k requires 0 <= k < |rows| => if rows[k].id == id then ApplyUpdate(rows[k], u, now) else rows[k])
  }

  /** The update keeps the table's length and order, rewrites the rows
      with the id and leaves the others as they were. */
  lemma UpdateWhereRows(rows: seq<DocumentRow>, id: string, u: DocumentSchema.DocumentUpdate, now: int)
    ensures |UpdateWhere(rows, id, u, now)| == |rows|
    ensures forall k :: 0 <= k < |rows| && rows[k].id != id ==> UpdateWhere(rows, id, u, now)[k] == rows[k]
    ensures forall k :: 0 <= k < |rows| && rows[k].id == id ==> UpdateWhere(rows, id, u, now)[k] == ApplyUpdate(rows[k], u, now)
  {
  }

  /** `DELETE … WHERE id = id`. */
  function DeleteWhere(rows: seq<DocumentRow>, id: string): seq<DocumentRow> {
    Filter(rows, (x: DocumentRow) => x.id != id)
  }

  /** The rows left are exactly the rows with another id. */
  lemma DeleteWhereMembers(rows: seq<DocumentRow>, id: string)
    ensures forall x :: x in DeleteWhere(rows, id) <==> x in rows && x.id != id
  {
    FilterMembers(rows, (x: DocumentRow) => x.id != id);
  }

  /** `ORDER BY created_at DESC`, ties in table order. */
  predicate NewerOrSame(a: DocumentRow, b: DocumentRow) { a.createdAt >= b.createdAt }

  function NewestFirst(rows: seq<DocumentRow>): (r: seq<DocumentRow>)
    ensures multiset(r) == multiset(rows)
    ensures forall i, j :: 0 <= i < j < |r| ==> r[i].createdAt >= r[j].createdAt
  {
    var le := (a: DocumentRow, b: DocumentRow) => NewerOrSame(a, b);
    SortBySorted(rows, le);
    var r := SortBy(rows, le);
    assert SortedBy(r, le);
    r
  }

  /** The rows `.range(skip, skip + limit - 1)` selects from `ordered`. */
  function Page<T>(ordered: seq<T>, skip: nat, limit: nat): (r: seq<T>)
    ensures |r| <= limit
    ensures skip < |ordered| ==> |r| == if skip + limit <= |ordered| then limit else |ordered| - skip
    ensures forall k :: 0 <= k < |r| ==> skip + k < |ordered| && r[k] == ordered[skip + k]
  {
    if skip >= |ordered| then []
    else if skip + limit <= |ordered| then ordered[skip..skip + limit]
    else ordered[skip..]
  }

  class DocumentService {
    var rows: seq<DocumentRow>

    constructor ()
      ensures rows == []
    {
      rows := [];
    }

    /** `create_document`: inserts the row and returns it; `inserted` says
        whether the insert came back with the row. */
    method CreateDocument(data: DocumentSchema.DocumentCreate, freshId: string, now: int, inserted: bool)
      returns (r: Result<DocumentRow, StoreError>)
      modifies this
      ensures inserted ==> r == Ok(NewRow(data, freshId, now)) && rows == old(rows) + [r.value]
      ensures !inserted ==> r == Err(InsertFailed) && rows == old(rows)
    {
      if !inserted {
        return Err(InsertFailed);
      }
      var row := NewRow(data, freshId, now);
      rows := rows + [row];
      r := Ok(row);
    }

    /** `get_documents`: one page of the newest-first ordering. */
    function GetDocuments(skip: nat, limit: nat): (r: seq<DocumentRow>)
      reads this
      ensures |r| <= limit
      ensures forall k :: 0 <= k < |r| ==> r[k] in rows
      ensures forall i, j :: 0 <= i < j < |r| ==> r[i].createdAt >= r[j].createdAt
      ensures r == Page(NewestFirst(rows), skip, limit)
    {
      var ordered := NewestFirst(rows);
      var r := Page(ordered, skip, limit);
      assert forall k :: 0 <= k < |r| ==> r[k] in multiset(ordered);
      r
    }

    /** `get_document_by_id`: format check first, then the first row with that id. */
    function GetDocumentById(id: string): (r: Result<Option<DocumentRow>, StoreError>)
      reads this
      ensures !Ids.IsUuid(id) <==> r == Err(InvalidId)
      ensures r.Ok? ==> (r.value.Some? <==> exists k :: 0 <= k < |rows| && rows[k].id == id)
      ensures r.Ok? && r.value.Some? ==> r.value.value in rows && r.value.value.id == id
    {
      if !Ids.IsUuid(id) then Err(InvalidId)
      else Ok(First(rows, (x: DocumentRow) => x.id == id))
    }

    /** `get_document_by_hash`: the first row with that hash; no format check. */
    function GetDocumentByHash(hash: string): (r: Option<DocumentRow>)
      reads this
      ensures r.Some? <==> exists k :: 0 <= k < |rows| && rows[k].fileHash == hash
      ensures r.Some? ==> r.value.fileHash == hash && r.value == rows[FirstIndex(rows, (x: DocumentRow) => x.fileHash == hash)]
    {
      First(rows, (x: DocumentRow) => x.fileHash == hash)
    }

    /** The lookup by file name the delete path calls: the first row with
        that name. */
    function GetDocumentByFilename(filename: string): (r: Option<DocumentRow>)
      reads this
      ensures r.Some? <==> exists k :: 0 <= k < |rows| && rows[k].filename == filename
      ensures r.Some? ==> r.value.filename == filename && r.value in rows
    {
      First(rows, (x: DocumentRow) => x.filename == filename)
    }

    /** `update_document`: format check, `None` for an absent id, otherwise
        the supplied fields and `updated_at` rewritten on the matching rows. */
    method UpdateDocument(id: string, u: DocumentSchema.DocumentUpdate, now: int)
      returns (r: Result<Option<DocumentRow>, StoreError>)
      modifies this
      ensures !Ids.IsUuid(id) ==> r == Err(InvalidId) && rows == old(rows)
      ensures Ids.IsUuid(id) && old(GetDocumentById(id)) == Ok(None) ==> r == Ok(None) && rows == old(rows)
      ensures Ids.IsUuid(id) && old(GetDocumentById(id)).Ok? && old(GetDocumentById(id)).value.Some? ==>
                r == Ok(Some(ApplyUpdate(old(GetDocumentById(id)).value.value, u, now)))
                && rows == UpdateWhere(old(rows), id, u, now)
    {
      var existing := GetDocumentById(id);
      if existing.Err? {
        return Err(InvalidId);
      }
      if existing.value.None? {
        return Ok(None);
      }
      rows := UpdateWhere(rows, id, u, now);
      r := Ok(Some(ApplyUpdate(existing.value.value, u, now)));
    }

    /** `delete_document`: format check, `False` for an absent id, otherwise
        the row removed and `True`. */
    method DeleteDocument(id: string) returns (r: Result<bool, StoreError>)
      modifies this
      ensures !Ids.IsUuid(id) ==> r == Err(InvalidId) && rows == old(rows)
      ensures Ids.IsUuid(id) ==> r == Ok(exists k :: 0 <= k < |old(rows)| && old(rows)[k].id == id)
      ensures r == Ok(false) ==> rows == old(rows)
      ensures r == Ok(true) ==> rows == DeleteWhere(old(rows), id)
    {
      var existing := GetDocumentById(id);
      if existing.Err? {
        return Err(InvalidId);
      }
      if existing.value.None? {
        return Ok(false);
      }
      rows := DeleteWhere(rows, id);
      r := Ok(true);
    }
  }
}
