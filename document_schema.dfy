/** The document record shapes and their field bounds (pydantic models
    `DocumentCreate` and `DocumentUpdate`). The chunk shapes that the same
    source file declares a second time carry exactly the bounds of
    `ChunkSchema`, which is where the model defines them. */
module DocumentSchema {
  import opened Wrappers

  datatype DocumentCreate = DocumentCreate(
    filename: string,
    fileType: string,
    fileHash: string,
    totalChunks: int)

  datatype DocumentUpdate = DocumentUpdate(
    filename: Option<string>,
    fileType: Option<string>,
    fileHash: Option<string>,
    totalChunks: Option<int>)

  datatype Field = Filename | FileType | FileHash | TotalChunks

  const MaxFilenameLength := 255
  const MaxFileTypeLength := 50
  const MaxFileHashLength := 128

  predicate FilenameOk(s: string) { 1 <= |s| <= MaxFilenameLength }
  predicate FileTypeOk(s: string) { 1 <= |s| <= MaxFileTypeLength }
  predicate FileHashOk(s: string) { 1 <= |s| <= MaxFileHashLength }

  /** The keyword construction `DocumentCreate(filename=…, file_path=…,
      file_type=…, file_hash=…)`: the record has no `file_path` field, so the
      keyword is ignored, and `total_chunks` takes its default. */
  function NewDocumentCreate(filename: string, filePath: string, fileType: string, fileHash: string): (c: DocumentCreate)
    ensures c.filename == filename && c.fileType == fileType && c.fileHash == fileHash
    ensures c.totalChunks == 0
  {
    DocumentCreate(filename, fileType, fileHash, 0)
  }

  /** Whatever path is passed, the validated record is the same. */
  lemma FilePathIgnored(filename: string, p: string, q: string, fileType: string, fileHash: string)
    ensures NewDocumentCreate(filename, p, fileType, fileHash) == NewDocumentCreate(filename, q, fileType, fileHash)
  {
  }

  function CreateErrors(c: DocumentCreate): (errs: set<Field>)
    ensures Filename in errs <==> !(1 <= |c.filename| <= 255)
    ensures FileType in errs <==> !(1 <= |c.fileType| <= 50)
    ensures FileHash in errs <==> !(1 <= |c.fileHash| <= 128)
    ensures TotalChunks in errs <==> c.totalChunks < 0
  {
    (if FilenameOk(c.filename) then {} else {Filename})
    + (if FileTypeOk(c.fileType) then {} else {FileType})
    + (if FileHashOk(c.fileHash) then {} else {FileHash})
    + (if c.totalChunks >= 0 then {} else {TotalChunks})
  }

  predicate ValidCreate(c: DocumentCreate) { CreateErrors(c) == {} }

  function ValidateCreate(c: DocumentCreate): (r: Result<DocumentCreate, set<Field>>)
    ensures r.Ok? <==> 1 <= |c.filename| <= 255 && 1 <= |c.fileType| <= 50
                       && 1 <= |c.fileHash| <= 128 && c.totalChunks >= 0
    ensures r.Ok? ==> r.value == c
    ensures r.Err? ==> r.error != {}
  {
    var errs := CreateErrors(c);
    if errs == {} then Ok(c)
    else
      assert exists f :: f in errs;
      Err(errs)
  }

  function UpdateErrors(u: DocumentUpdate): (errs: set<Field>)
    ensures Filename in errs <==> u.filename.Some? && !(1 <= |u.filename.value| <= 255)
    ensures FileType in errs <==> u.fileType.Some? && !(1 <= |u.fileType.value| <= 50)
    ensures FileHash in errs <==> u.fileHash.Some? && !(1 <= |u.fileHash.value| <= 128)
    ensures TotalChunks in errs <==> u.totalChunks.Some? && u.totalChunks.value < 0
  {
    (if u.filename.None? || FilenameOk(u.filename.value) then {} else {Filename})
    + (if u.fileType.None? || FileTypeOk(u.fileType.value) then {} else {FileType})
    + (if u.fileHash.None? || FileHashOk(u.fileHash.value) then {} else {FileHash})
    + (if u.totalChunks.None? || u.totalChunks.value >= 0 then {} else {TotalChunks})
  }

  predicate ValidUpdate(u: DocumentUpdate) { UpdateErrors(u) == {} }

  /** `DocumentUpdate(total_chunks=n)`: only the chunk count is present. */
  function TotalChunksUpdate(n: int): (u: DocumentUpdate)
    ensures u.filename.None? && u.fileType.None? && u.fileHash.None?
    ensures u.totalChunks == Some(n)
    ensures ValidUpdate(u) <==> n >= 0
  {
    DocumentUpdate(None, None, None, Some(n))
  }

  function FullUpdate(c: DocumentCreate): DocumentUpdate {
    DocumentUpdate(Some(c.filename), Some(c.fileType), Some(c.fileHash), Some(c.totalChunks))
  }

  /** The update record carries the same bounds as the create record. */
  lemma UpdateBoundsMatchCreate(c: DocumentCreate)
    ensures UpdateErrors(FullUpdate(c)) == CreateErrors(c)
    ensures ValidUpdate(FullUpdate(c)) <==> ValidCreate(c)
  {
  }
}
