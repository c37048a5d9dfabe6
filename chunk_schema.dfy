/** The chunk record shapes and their field bounds (pydantic models
    `ChunkCreate` and `ChunkUpdate`). A record that breaks a bound is
    refused with a validation error naming every offending field. */
module ChunkSchema {
  import opened Wrappers

  datatype ChunkCreate = ChunkCreate(
    documentId: string,
    chunkIndex: int,
    content: string,
    tokenCount: int,
    startCharIndex: int,
    endCharIndex: int,
    vectorId: string)

  /** Every field optional; `None` means "leave unchanged". */
  datatype ChunkUpdate = ChunkUpdate(
    documentId: Option<string>,
    chunkIndex: Option<int>,
    content: Option<string>,
    tokenCount: Option<int>,
    startCharIndex: Option<int>,
    endCharIndex: Option<int>,
    vectorId: Option<string>)

  datatype Field = DocumentId | ChunkIndex | Content | TokenCount | StartCharIndex | EndCharIndex | VectorId

  const MaxVectorIdLength := 255

  predicate ContentOk(s: string) { |s| >= 1 }

  predicate VectorIdOk(s: string) { 1 <= |s| <= MaxVectorIdLength }

  /** A `ge=0` bound on an optional field: absent, or present and non-negative. */
  predicate OptNonNegative(v: Option<int>) { v.None? || v.value >= 0 }

  /** The fields of a create record that break their bound. */
  function CreateErrors(c: ChunkCreate): (errs: set<Field>)
    ensures DocumentId !in errs
    ensures ChunkIndex in errs <==> c.chunkIndex < 0
    ensures Content in errs <==> |c.content| == 0
    ensures TokenCount in errs <==> c.tokenCount < 0
    ensures StartCharIndex in errs <==> c.startCharIndex < 0
    ensures EndCharIndex in errs <==> c.endCharIndex < 0
    ensures VectorId in errs <==> !VectorIdOk(c.vectorId)
  {
    (if c.chunkIndex >= 0 then {} else {ChunkIndex})
    + (if ContentOk(c.content) then {} else {Content})
    + (if c.tokenCount >= 0 then {} else {TokenCount})
    + (if c.startCharIndex >= 0 then {} else {StartCharIndex})
    + (if c.endCharIndex >= 0 then {} else {EndCharIndex})
    + (if VectorIdOk(c.vectorId) then {} else {VectorId})
  }

  predicate ValidCreate(c: ChunkCreate) { CreateErrors(c) == {} }

  /** Constructing the model: the record itself, or the offending fields. */
  function ValidateCreate(c: ChunkCreate): (r: Result<ChunkCreate, set<Field>>)
    ensures r.Ok? <==> c.chunkIndex >= 0 && |c.content| >= 1 && c.tokenCount >= 0
                       && c.startCharIndex >= 0 && c.endCharIndex >= 0
                       && 1 <= |c.vectorId| <= MaxVectorIdLength
    ensures r.Ok? ==> r.value == c
    ensures r.Err? ==> r.error != {}
  {
    var errs := CreateErrors(c);
    if errs == {} then Ok(c)
    else
      assert exists f :: f in errs;
      Err(errs)
  }

  /** The fields of an update record that are present and break their bound. */
  function UpdateErrors(u: ChunkUpdate): (errs: set<Field>)
    ensures DocumentId !in errs
    ensures ChunkIndex in errs <==> !OptNonNegative(u.chunkIndex)
    ensures Content in errs <==> u.content.Some? && |u.content.value| == 0
    ensures TokenCount in errs <==> !OptNonNegative(u.tokenCount)
    ensures StartCharIndex in errs <==> !OptNonNegative(u.startCharIndex)
    ensures EndCharIndex in errs <==> !OptNonNegative(u.endCharIndex)
    ensures VectorId in errs <==> u.vectorId.Some? && !VectorIdOk(u.vectorId.value)
  {
    (if OptNonNegative(u.chunkIndex) then {} else {ChunkIndex})
    + (if u.content.None? || ContentOk(u.content.value) then {} else {Content})
    + (if OptNonNegative(u.tokenCount) then {} else {TokenCount})
    + (if OptNonNegative(u.startCharIndex) then {} else {StartCharIndex})
    + (if OptNonNegative(u.endCharIndex) then {} else {EndCharIndex})
    + (if u.vectorId.None? || VectorIdOk(u.vectorId.value) then {} else {VectorId})
  }

  predicate ValidUpdate(u: ChunkUpdate) { UpdateErrors(u) == {} }

  const EmptyUpdate := ChunkUpdate(None, None, None, None, None, None, None)

  /** The update that would set every field to the create record's value. */
  function FullUpdate(c: ChunkCreate): ChunkUpdate {
    ChunkUpdate(Some(c.documentId), Some(c.chunkIndex), Some(c.content), Some(c.tokenCount),
                Some(c.startCharIndex), Some(c.endCharIndex), Some(c.vectorId))
  }

  /** The update record carries the same bounds as the create record:
      a field is rejected in one exactly when it is rejected in the other,
      and an update with no fields is always accepted. */
  lemma UpdateBoundsMatchCreate(c: ChunkCreate)
    ensures UpdateErrors(FullUpdate(c)) == CreateErrors(c)
    ensures ValidUpdate(FullUpdate(c)) <==> ValidCreate(c)
    ensures ValidUpdate(EmptyUpdate)
  {
  }

  /** The bounds on the two character offsets are independent: a record
      whose start lies after its end is accepted. */
  lemma StartAfterEndAccepted()
    ensures var c := ChunkCreate("d", 0, "x", 1, 7, 3, "v");
            ValidCreate(c) && c.startCharIndex > c.endCharIndex
  {
  }
}
