# Manus backend: document ingestion and retrieval, modelled in Dafny

This project models the part of the Manus backend that turns files in a
watched folder into searchable chunks and answers questions from them:

- the file watcher's queue (`FileMonitor`);
- the event dispatcher (`FileProcessor`);
- the ingestion coordinator (`DocumentProcessor`). It extracts text, hashes it, rejects duplicates, records the document, merges lines into paragraphs, cuts token windows and buffered chunks, recovers character offsets, upserts vectors in batches of 100, stores chunk rows, and deletes a file's vectors, chunks and document;
- the document and chunk services over their tables, with their UUID checks and partial updates;
- the pydantic field bounds of the records;
- the retriever that joins index matches back to chunk and document rows (`search_similar_chunks`);
- the answer builder (`answer_question`). It makes sources, audit messages and the context the language model answers from.

The model is organised as follows:

- Every external service is an input:
  - the PDF, DOCX and text readers;
  - MD5;
  - the tokenizer's `encode`/`decode`;
  - the characters-per-token estimate;
  - the embedding call;
  - the index's similarity query;
  - the chat completion;
  - `str()` of a source;
  - fresh ids;
  - clock readings;
  - whether each insert comes back with a row;
  - the folder listing;
  - whether the folder exists and whether the observer starts.
- The tables, the vector index, the message table and the watcher are classes whose fields the methods update.
- Each method is proved equal to a specification function.
- The properties are proved about those functions.

Module map:

| module | file | source |
|---|---|---|
| `Wrappers`, `Seqs`, `Text` | `wrappers.dfy`, `seqs.dfy`, `text.dfy` | Python built-ins the source relies on (`split`, `join`, `strip`, `find`, `lower`, `str(int)`, path suffixes, `sorted`, `set`) |
| `Ids` | `ids.dfy` | the `uuid.UUID(...)` format check and `str(uuid4())` |
| `ContentHash` | `content_hash.dfy` | `_calculate_file_hash` |
| `Extraction` | `extraction.dfy` | `_extract_text_from_file` and the three readers |
| `Chunker` | `chunker.dfy` | `_chunk_text` |
| `DocumentSchema`, `ChunkSchema` | `document_schema.dfy`, `chunk_schema.dfy` | `schemas/document.py`, `schemas/chunk.py` |
| `DocumentStore`, `ChunkStore` | `document_store.dfy`, `chunk_store.dfy` | `services/document.py`, `services/chunk.py` |
| `VectorIndex` | `vector_index.dfy` | the index's upsert and delete |
| `Ingestion`, `IngestionProperties` | `ingestion.dfy`, `ingestion_properties.dfy` | `process_document`, `delete_document` |
| `FileProcessor` | `file_processor.dfy` | `core/file_processor.py` |
| `FileMonitor` | `file_monitor.dfy` | `core/file_monitor.py` |
| `Analysis` | `analysis.dfy` | `agent/analysing_processor.py` |
| `Reasoning` | `reasoning.dfy` | `agent/reasoning_processor.py` |

The startup scan and the live filter disagree on what counts as a matching
file:

- The startup scan (`glob`/`rglob` with `*` + extension) matches the extension case-sensitively. It also matches a file named just `.pdf`.
- The live filter lower-cases `PurePath.suffix`. A file named just `.pdf` has no suffix.

`FileMonitor.UpperCaseOnlyLive` and `FileMonitor.DotFileOnlyAtStartup` prove
this disagreement on concrete names.

A start that fails after the consumer task was created calls `stop`. That
call does nothing, because the monitor is not yet running, so the consumer task stays
alive. `FileMonitor.Monitor.Start` states this: `consumers` goes up by one
whether or not the start succeeds.

## Model

| member | source | states |
|---|---|---|
| Ids.CanonicalIsUuid | manus-backend/models/document.py:9 | every id of the `str(uuid4())` form (8-4-4-4-12 lower-case hex digits) passes the stores' `uuid.UUID` format check |
| Ids.SignedIsUuid | manus-backend/services/document.py:40-43 | the check is `int(..., 16)` after stripping: a `+` and 31 hex digits pass it, so such an id goes on to the query |
| Ids.PrefixedIsUuid | manus-backend/services/document.py:40-43 | likewise `0x` and 30 hex digits pass the check |
| Ids.EmptyIsNotUuid | manus-backend/services/document.py:40-43 | the empty string fails the format check, so an id-keyed operation raises `ValueError` on it |
| ContentHash.FileHash | manus-backend/agent/document_processor.py:55-57 | the hash stored with a document is 32 lower-case hexadecimal digits |
| ContentHash.HexDigestInjective | manus-backend/agent/document_processor.py:55-57 | different digests have different hexadecimal forms, so comparing stored hashes compares digests |
| Extraction.Classify | manus-backend/agent/document_processor.py:59-70 | the lower-cased extension selects PDF, DOCX or text, each exactly when the extension is `.pdf`, `.docx` or `.txt`; any other extension is refused with that extension |
| Extraction.Tag | manus-backend/agent/document_processor.py:63-68 | the stored type tag is a non-empty string of at most four characters (`pdf`, `docx`, `txt`) |
| Extraction.Extract | manus-backend/agent/document_processor.py:59-92 | extraction succeeds only with the format the extension selects, and an unsupported extension is the error whatever the readers would do |
| Extraction.UnsupportedBeforeReading | manus-backend/agent/document_processor.py:69-70 | an unsupported extension raises before any reader runs: the outcome does not depend on the readers |
| Extraction.JoinLinesIsJoin | manus-backend/agent/document_processor.py:72-87 | the accumulated PDF/DOCX text is the pages or paragraphs joined by newlines, with a final newline |
| Extraction.SplitJoinLines | manus-backend/agent/document_processor.py:72-87 | pages free of newlines come back, in order, from splitting the accumulated text at newlines |
| Extraction.Accumulate | manus-backend/agent/document_processor.py:75-78 | the `text += piece + "\n"` loop yields each piece followed by a newline, in order |
| Extraction.ExtractTextFromFile | manus-backend/agent/document_processor.py:59-92 | the extraction method returns exactly what the extraction specification gives, including its errors |
| Chunker.StrippedLines | manus-backend/agent/document_processor.py:97 | the line split of any text has at least one line |
| Chunker.MergeParagraphs | manus-backend/agent/document_processor.py:96-111 | the merge loop, stepping one or two lines, produces the paragraphs of the merge specification |
| Chunker.MergedNonEmpty | manus-backend/agent/document_processor.py:100-111 | no merged paragraph is empty |
| Chunker.BlankTextNoParagraphs | manus-backend/agent/document_processor.py:96-111 | whitespace-only text yields no paragraphs |
| Chunker.MergeKeepsLines | manus-backend/agent/document_processor.py:100-111 | the merge loses no non-blank line, invents none and keeps their order |
| Chunker.MergedKeepsLines | manus-backend/agent/document_processor.py:96-111 | for a whole text, the non-blank lines of the paragraphs are exactly the non-blank stripped lines |
| Chunker.SingleLineMerged | manus-backend/agent/document_processor.py:96-111 | a one-line text with content is one paragraph, the stripped line |
| Chunker.WindowEnd | manus-backend/agent/document_processor.py:126 | a window ends no earlier than it starts and not past the paragraph |
| Chunker.WindowBoundsShape | manus-backend/agent/document_processor.py:123-148 | every window is non-empty, inside the paragraph and at most `max_tokens` long, and cut short only at the paragraph's end; each next window starts `overlap` tokens before the previous end, and only the last reaches the end |
| Chunker.WindowBoundsReachEnd | manus-backend/agent/document_processor.py:123-148 | with a non-negative overlap the first window starts at the start and the last ends exactly at the paragraph's token count |
| Chunker.WindowBoundsCover | manus-backend/agent/document_processor.py:123-148 | with a non-negative overlap every token of the paragraph lies in some window |
| Chunker.WindowBoundsExample | manus-backend/agent/document_processor.py:94 | with the defaults (512, 50) a 1000-token paragraph is windowed as [0,512), [462,974), [924,1000) |
| Chunker.WindowsFromEmits | manus-backend/agent/document_processor.py:123-148 | the window loop appends one chunk per window whose stripped decoding is non-blank, in window order, with that text and the window's width as token count, and leaves the buffer alone |
| Chunker.PlaceChunk | manus-backend/agent/document_processor.py:131-137 | the search-and-fallback placement of one chunk, as the placement specification gives it |
| Chunker.PlaceWindow | manus-backend/agent/document_processor.py:126-145 | one window of the loop, as the window-step specification gives it |
| Chunker.WindowChunks | manus-backend/agent/document_processor.py:123-148 | the window loop over a long paragraph equals the windowing specification |
| Chunker.CommitBuffer | manus-backend/agent/document_processor.py:155-176 | the buffer commit equals the commit specification |
| Chunker.ChunkParagraph | manus-backend/agent/document_processor.py:119-176 | one paragraph of the token pass equals the paragraph-step specification |
| Chunker.ChunkText | manus-backend/agent/document_processor.py:94-193 | `_chunk_text` returns exactly the chunks (or the division error) of the chunking specification |
| Chunker.ChunkOffsets | manus-backend/agent/document_processor.py:132-137 | every chunk ends `len(text)` characters after its start. A chunk the search finds starts at or after the previous chunk's end, at the first occurrence from there, and the text holds the chunk there. A chunk the search misses starts at the fallback: the token estimate for a window, the search position for the buffer |
| Chunker.RunOffsets | manus-backend/agent/document_processor.py:119-191 | every successful run keeps the offset invariant (chunks placed, search position at the last chunk's end) |
| Chunker.ShortParagraphBuffered | manus-backend/agent/document_processor.py:150-153 | a paragraph under 30 tokens joins the buffer with no size check, whatever the buffer holds |
| Chunker.MidParagraphCommits | manus-backend/agent/document_processor.py:155-176 | a paragraph of 30 to `max_tokens` tokens that would overflow a non-empty buffer first emits the buffer as one chunk with its token count, then restarts the buffer with its own tokens |
| Chunker.MidParagraphBuffered | manus-backend/agent/document_processor.py:155-176 | such a paragraph that fits, or meets an empty buffer, only extends the buffer |
| Chunker.LongParagraphWindowed | manus-backend/agent/document_processor.py:123-148 | a paragraph longer than `max_tokens` is windowed while the buffer stays pending, so earlier buffered text is emitted after it; each of its chunks is non-blank with 1 to `max_tokens` tokens |
| Chunker.CommitEmitsBuffer | manus-backend/agent/document_processor.py:155-176 | a commit appends exactly one chunk, the stripped decoding of the buffer with the buffer's token count, and fails exactly when the search misses on a text with no tokens |
| Chunker.FlushEmitsBuffer | manus-backend/agent/document_processor.py:178-191 | the final flush emits a non-empty buffer as the last chunk and changes nothing when the buffer is empty |
| Chunker.BufferedChunkCanExceed | manus-backend/agent/document_processor.py:150-153 | two short paragraphs that together exceed `max_tokens` end in one buffered chunk whose token count is above `max_tokens` |
| Chunker.BlankTextNoChunks | manus-backend/agent/document_processor.py:94-193 | whitespace-only text gives no chunks |
| Chunker.FoldOneParagraph | manus-backend/agent/document_processor.py:150-176 | a single paragraph that fits one chunk only fills the buffer |
| Chunker.FlushOnlyChunk | manus-backend/agent/document_processor.py:178-191 | flushing a lone buffer whose text occurs in the document gives that one chunk at its first occurrence |
| Chunker.SingleLineChunk | manus-backend/agent/document_processor.py:94-193 | a one-line text that fits one chunk, with a tokenizer that round-trips it (a stated hypothesis), becomes exactly one chunk: the stripped line at its first occurrence |
| DocumentSchema.NewDocumentCreate | manus-backend/agent/document_processor.py:216-221 | the record built for a new document carries the name, type and hash, and zero chunks |
| DocumentSchema.FilePathIgnored | manus-backend/schemas/document.py:6-13 | the `file_path` keyword does not reach the validated record: any two paths give the same record |
| DocumentSchema.CreateErrors | manus-backend/schemas/document.py:6-10 | a field is reported exactly when it breaks its bound: name 1..255, type 1..50, hash 1..128, chunk count at least 0 |
| DocumentSchema.ValidateCreate | manus-backend/schemas/document.py:6-13 | validation accepts exactly the records within all four bounds, returns the record unchanged, and otherwise names at least one field |
| DocumentSchema.UpdateErrors | manus-backend/schemas/document.py:15-19 | an update field is reported exactly when it is present and breaks the create bound |
| DocumentSchema.TotalChunksUpdate | manus-backend/agent/document_processor.py:277 | the count update sets only `total_chunks`, and is valid exactly for a non-negative count |
| DocumentSchema.UpdateBoundsMatchCreate | manus-backend/schemas/document.py:6-19 | the update record rejects a field exactly when the create record rejects it |
| ChunkSchema.CreateErrors | manus-backend/schemas/chunk.py:5-12 | a field is reported exactly when it breaks its bound: index, token count and both offsets at least 0, content non-empty, vector id 1..255; the document id is unchecked |
| ChunkSchema.ValidateCreate | manus-backend/schemas/chunk.py:5-14 | validation accepts exactly the records within all bounds, unchanged, and otherwise names at least one field |
| ChunkSchema.UpdateErrors | manus-backend/schemas/chunk.py:17-24 | an update field is reported exactly when it is present and breaks the create bound |
| ChunkSchema.UpdateBoundsMatchCreate | manus-backend/schemas/document.py:31-50 | the update record has the bounds of the create record, and an empty update is valid; the copies in the document schema file have the same bounds |
| ChunkSchema.StartAfterEndAccepted | manus-backend/schemas/chunk.py:10-11 | the two offsets are bounded independently: a record starting after its end is accepted |
| DocumentStore.NewRow | manus-backend/services/document.py:17-22 | the inserted row copies name, type, hash and chunk count, takes the fresh id and clock, and has no file path |
| DocumentStore.ApplyUpdate | manus-backend/services/document.py:72-81 | an update rewrites exactly the supplied fields and `updated_at`; id, path and creation time are kept |
| DocumentStore.ApplyUpdateIdempotent | manus-backend/services/document.py:72-81 | applying the same update twice equals applying it once, apart from the timestamp |
| DocumentStore.UpdateWhereRows | manus-backend/services/document.py:83 | the table keeps its length and order; rows with the id are rewritten, the others untouched |
| DocumentStore.DeleteWhereMembers | manus-backend/services/document.py:100 | after a delete the table holds exactly the rows with another id |
| DocumentStore.NewestFirst | manus-backend/services/document.py:33 | the ordering is a permutation of the table with creation times non-increasing |
| DocumentStore.Page | manus-backend/services/document.py:33 | `.range(skip, skip+limit-1)` returns at most `limit` rows, the ones at `skip`, `skip+1`, … of the ordering |
| DocumentStore.DocumentService.CreateDocument | manus-backend/services/document.py:15-29 | a successful insert appends the new row and returns it; a failed insert raises and leaves the table |
| DocumentStore.DocumentService.GetDocuments | manus-backend/services/document.py:31-36 | a page of table rows, newest first, at most `limit` long |
| DocumentStore.DocumentService.GetDocumentById | manus-backend/services/document.py:38-50 | an id `uuid.UUID` refuses raises, exactly; otherwise a row with the id exactly when the table has one |
| DocumentStore.DocumentService.GetDocumentByHash | manus-backend/services/document.py:52-59 | the first row with the hash, present exactly when some row has it; no format check |
| DocumentStore.DocumentService.GetDocumentByFilename | manus-backend/agent/document_processor.py:287 | a row with the name, present exactly when some row has it |
| DocumentStore.DocumentService.UpdateDocument | manus-backend/services/document.py:61-88 | an id `uuid.UUID` refuses raises and an absent one gives `None`, both leaving the table; otherwise the rows with the id are updated and the updated row returned |
| DocumentStore.DocumentService.DeleteDocument | manus-backend/services/document.py:90-102 | an id `uuid.UUID` refuses raises; otherwise the result says whether the id was present, and only then are its rows removed |
| ChunkStore.NewRow | manus-backend/services/chunk.py:18-27 | the inserted row copies all seven fields and takes the fresh id and clock |
| ChunkStore.ApplyUpdate | manus-backend/services/chunk.py:109-130 | an update rewrites exactly the supplied fields and `updated_at` |
| ChunkStore.EmptyUpdateOnlyTouchesTimestamp | manus-backend/services/chunk.py:109-130 | an update with no fields only moves `updated_at` |
| ChunkStore.ApplyUpdateIdempotent | manus-backend/services/chunk.py:109-130 | applying the same update twice equals applying it once, apart from the timestamp |
| ChunkStore.UpdateWhereRows | manus-backend/services/chunk.py:130 | the table keeps its length and order; rows with the id are rewritten, the others untouched |
| ChunkStore.Parent | manus-backend/services/chunk.py:60-65 | the joined document is the one the chunk's foreign key names, present exactly when such a row exists |
| ChunkStore.DeleteWhereDocumentMembers | manus-backend/services/chunk.py:158 | the rows left are exactly those of other documents |
| ChunkStore.OfDocumentMembers | manus-backend/services/chunk.py:89 | a document's rows are exactly its rows of the table, as a permutation, in non-decreasing `chunk_index` |
| ChunkStore.ChunkService.CreateChunk | manus-backend/services/chunk.py:16-33 | a successful insert appends the new row and returns it; a failed insert raises and leaves the table |
| ChunkStore.ChunkService.GetChunkById | manus-backend/services/chunk.py:42-54 | an id `uuid.UUID` refuses raises, exactly; otherwise a row with the id exactly when the table has one |
| ChunkStore.ChunkService.GetChunkByVectorId | manus-backend/services/chunk.py:93-100 | a row with the vector id, present exactly when one exists; no format check |
| ChunkStore.ChunkService.GetChunksByVectorIds | manus-backend/services/chunk.py:56-80 | `None` exactly when no row has a listed vector id, never an empty list; otherwise every such row exactly, each joined with its document |
| ChunkStore.ChunkService.GetChunksByDocumentId | manus-backend/services/chunk.py:82-91 | an id `uuid.UUID` refuses raises, exactly; otherwise exactly the document's rows, in `chunk_index` order |
| ChunkStore.ChunkService.UpdateChunk | manus-backend/services/chunk.py:102-135 | an id `uuid.UUID` refuses raises and an absent one gives `None`, both leaving the table; otherwise the rows with the id are updated and the updated row returned |
| ChunkStore.ChunkService.DeleteChunk | manus-backend/services/chunk.py:137-149 | an id `uuid.UUID` refuses raises; otherwise the result says whether the id was present, and only then is the row removed |
| ChunkStore.ChunkService.DeleteChunksByDocumentId | manus-backend/services/chunk.py:151-159 | an id `uuid.UUID` refuses raises; otherwise all the document's rows go and the result is `True` |
| VectorIndex.UpsertedKeys | manus-backend/agent/document_processor.py:266-269 | after an upsert the index holds the ids it held and the ids sent |
| VectorIndex.UpsertedKeeps | manus-backend/agent/document_processor.py:266-269 | ids not sent keep their record |
| VectorIndex.UpsertedLastWins | manus-backend/agent/document_processor.py:266-269 | for each id sent, the last record carrying it is the one kept |
| VectorIndex.UpsertedDistinct | manus-backend/agent/document_processor.py:266-269 | when ids are distinct, every record sent is in the index |
| VectorIndex.UpsertedConcat | manus-backend/agent/document_processor.py:266-269 | sending records in two requests has the effect of sending them in one |
| VectorIndex.DeletedEntries | manus-backend/agent/document_processor.py:294 | a delete drops exactly the listed ids and keeps the other records |
| VectorIndex.DeleteUndoesUpsert | manus-backend/agent/document_processor.py:266-269 | deleting every upserted id, none of them held before, gives back the index as it was |
| VectorIndex.Index.Upsert | manus-backend/agent/document_processor.py:269 | the index becomes the upsert of the batch, and the request is recorded |
| VectorIndex.Index.Delete | manus-backend/agent/document_processor.py:294 | the index loses the listed ids, and the request is recorded |
| Ingestion.VectorIdInjective | manus-backend/agent/document_processor.py:240 | `"{document_id}_{i}"` determines `i`: one document's chunks never share a vector id |
| Ingestion.RecordsAgree | manus-backend/agent/document_processor.py:233-263 | chunk `i`'s vector and row carry index `i`, vector id `"{document_id}_{i}"`, the document id and the same range; the row holds the whole text and the metadata its first 500 characters |
| Ingestion.VectorIdsDistinct | manus-backend/agent/document_processor.py:240 | no two vectors of one document share an id |
| Ingestion.BuildRecords | manus-backend/agent/document_processor.py:233-263 | the loop builds exactly the vector and row records of the chunks, in order |
| Ingestion.BatchesCover | manus-backend/agent/document_processor.py:266-267 | the batches cover the vectors exactly once, in order, each 1 to 100 long and all but the last exactly 100 |
| Ingestion.BatchedUpsertIsUpsert | manus-backend/agent/document_processor.py:266-269 | upserting batch after batch leaves the index as one upsert of all vectors would |
| Ingestion.UpsertInBatches | manus-backend/agent/document_processor.py:266-269 | the loop leaves the index as one upsert of all vectors, and sends one request per batch, in order |
| Ingestion.InsertChunksShape | manus-backend/agent/document_processor.py:272-275 | the row loop stores the longest run of accepted records and stops at the first record that fails validation or insert, reporting it |
| Ingestion.CreateChunkRows | manus-backend/agent/document_processor.py:272-275 | the row-storing loop equals the insert specification, failure included |
| Ingestion.DocumentProcessor.constructor | manus-backend/agent/document_processor.py:23-53 | a new coordinator starts with empty tables and index |
| Ingestion.DocumentProcessor.ProcessDocument | manus-backend/agent/document_processor.py:204-281 | the outcome and the tables afterwards are those of the ingestion specification |
| Ingestion.DocumentProcessor.AdmitDocument | manus-backend/agent/document_processor.py:206-227 | extraction, hash, duplicate check, validation and insert as the admission specification gives them; only a success appends the row |
| Ingestion.DocumentProcessor.StoreChunks | manus-backend/agent/document_processor.py:229-277 | chunking and the storing steps, as the storing specification gives them |
| Ingestion.DocumentProcessor.SavePieces | manus-backend/agent/document_processor.py:233-277 | records, batched upsert, chunk rows and chunk count, as the saving specification gives them |
| Ingestion.DocumentProcessor.DeleteDocument | manus-backend/agent/document_processor.py:283-299 | the outcome and the tables afterwards are those of the delete specification |
| Ingestion.DocumentProcessor.ClearDocument | manus-backend/agent/document_processor.py:292-296 | vectors, then chunk rows, then the document row removed, as the specification gives them |
| IngestionProperties.InsertChunksFailures | manus-backend/agent/document_processor.py:272-275 | the chunk loop fails only on a rejected record or a failed insert |
| IngestionProperties.StoreOutcomes | manus-backend/agent/document_processor.py:229-281 | once the document row exists, the run never ends in a duplicate or an extraction or document failure |
| IngestionProperties.AdmitOutcomes | manus-backend/agent/document_processor.py:206-227 | admission stops only with an early outcome; a success carries the extracted text and a row with the fresh id, the base name and no chunks |
| IngestionProperties.EarlyOutcomeWritesNothing | manus-backend/agent/document_processor.py:209-227 | a run ends early exactly when admission fails, and then no table, no vector and no request changes |
| IngestionProperties.DuplicateIffKnownHash | manus-backend/agent/document_processor.py:209-214 | the "already exists" message comes exactly when the text is read and some row has its hash; nothing is written, and only this outcome returns a value |
| IngestionProperties.StoreKeepsRow | manus-backend/agent/document_processor.py:229-281 | the storing steps keep every earlier document row; the new row stays, updated with the chunk count only when the run completes |
| IngestionProperties.DocumentRowSurvives | manus-backend/agent/document_processor.py:216-281 | the document row is never rolled back: after any non-early run it is the last row, with the fresh id and the base name, and its chunk count is the run's when it completes, 0 otherwise |
| IngestionProperties.StoreProcessed | manus-backend/agent/document_processor.py:229-277 | a completed storing run accepted every chunk record, appended one row per chunk, upserted all vectors in batches and reports the chunk count |
| IngestionProperties.InsertChunksStops | manus-backend/agent/document_processor.py:272-275 | a failing loop stops at the first unaccepted record, keeping the rows before it |
| IngestionProperties.StoreChunkFailure | manus-backend/agent/document_processor.py:266-281 | when a chunk record fails, the rows before it stay, every vector stays upserted, and the document's count is not updated |
| IngestionProperties.IngestIsStore | manus-backend/agent/document_processor.py:204-281 | a run past the early outcomes is the storing steps on the tables with the new document row appended |
| IngestionProperties.CreatedChunkRows | manus-backend/agent/document_processor.py:233-275 | row `k` belongs to the document, has index `k`, the chunk's text, count and range, vector id `"{document_id}_{k}"` and the fresh id |
| IngestionProperties.ProcessedStoresRows | manus-backend/agent/document_processor.py:204-281 | a completed run stores one row per chunk after the existing rows and upserts all vectors, in batches |
| IngestionProperties.IndexedVectors | manus-backend/agent/document_processor.py:233-269 | after the upsert, the index holds chunk `k`'s vector under `"{document_id}_{k}"` |
| IngestionProperties.ProcessedStoresEverything | manus-backend/agent/document_processor.py:204-281 | after a completed run every chunk has its row and its vector, under the same vector id |
| IngestionProperties.ChunkFailureKeepsUpload | manus-backend/agent/document_processor.py:266-281 | no rollback: a failing chunk keeps the rows before it and every vector upserted |
| IngestionProperties.RemoveNotFound | manus-backend/agent/document_processor.py:286-290 | the result is "not found" exactly when no row has the file's base name, and any result other than a removal leaves the tables unchanged |
| IngestionProperties.RemoveClears | manus-backend/agent/document_processor.py:283-299 | deleting a file removes the first row with its base name, all that document's chunk rows and exactly their vector ids, in `chunk_index` order, with one delete request; everything else stays |
| IngestionProperties.RemoveAppended | manus-backend/agent/document_processor.py:283-299 | deleting a document whose row, chunk rows and vectors were appended gives back the earlier tables and index |
| IngestionProperties.StoreAppends | manus-backend/agent/document_processor.py:233-277 | a completed storing run appends rows and upserts vectors that name each other's ids, one per chunk |
| IngestionProperties.AppendedRow | manus-backend/agent/document_processor.py:216-227 | a non-early run appends exactly one document row, with the fresh id and the base name |
| IngestionProperties.ProcessedAppends | manus-backend/agent/document_processor.py:204-281 | a completed run appends one document row, one chunk row per chunk and vectors under matching ids |
| IngestionProperties.IngestThenRemove | manus-backend/agent/document_processor.py:204-299 | ingesting a new file and then deleting it gives back the document rows, chunk rows and index |
| FileProcessor.Dispatch | manus-backend/core/file_processor.py:12-69 | success exactly for `deleted` or for a known content kind whose file exists; only a delete, or an ingest for `created`/`startup`, changes the tables |
| FileProcessor.FileProcessor.constructor | manus-backend/core/file_processor.py:9-10 | the dispatcher holds the coordinator |
| FileProcessor.FileProcessor.ProcessFileEvent | manus-backend/core/file_processor.py:12-25 | the result and the tables are those of the dispatch specification |
| FileProcessor.FileProcessor.HandleFileDeletion | manus-backend/core/file_processor.py:27-47 | always `True`, with the tables as the delete leaves them |
| FileProcessor.FileProcessor.PostProcessContent | manus-backend/core/file_processor.py:49-69 | a vanished file gives `False` and nothing else; only `startup`/`created` ingest; `modified` does nothing and gives `True` |
| FileMonitor.AllowedExtensions | manus-backend/core/file_monitor.py:23 | the allowed set is never empty: a missing or empty set falls back to the three defaults, and a non-empty one is kept |
| FileMonitor.PartsLeTotalOrder | manus-backend/core/file_monitor.py:174 | path order is total and transitive, so `sorted` fully orders the backlog |
| FileMonitor.BacklogMembers | manus-backend/core/file_monitor.py:162-174 | the backlog holds exactly the entries some allowed extension's glob finds |
| FileMonitor.BacklogStrictlySorted | manus-backend/core/file_monitor.py:174 | the backlog is in strictly increasing path order, so each path comes once |
| FileMonitor.UpperCaseOnlyLive | manus-backend/core/file_monitor.py:162-171 | `X.PDF` is missed by the startup scan but queued by the live filter |
| FileMonitor.DotFileOnlyAtStartup | manus-backend/core/file_monitor.py:222-225 | `.pdf` is found by the startup scan but ignored by the live filter |
| FileMonitor.Monitor.constructor | manus-backend/core/file_monitor.py:15-32 | a new monitor is stopped, with no task, an empty queue and the allowed set of `AllowedExtensions` |
| FileMonitor.Monitor.SetFileProcessor | manus-backend/core/file_monitor.py:110-112 | a processor is registered; nothing else changes |
| FileMonitor.Monitor.ProcessNext | manus-backend/core/file_monitor.py:114-152 | the oldest event is taken, marked done and handed to the processor if one is registered |
| FileMonitor.Monitor.Drain | manus-backend/core/file_monitor.py:206 | the consumer takes every pending event, in FIFO order, until the queue is empty |
| FileMonitor.Monitor.Start | manus-backend/core/file_monitor.py:34-83 | a running monitor or a missing folder: `False` and nothing changes. Otherwise every backlog file is handled once, in order, before the observer starts. It succeeds exactly when the scan and the observer do, and leaves one more consumer either way |
| FileMonitor.Monitor.Launch | manus-backend/core/file_monitor.py:50-83 | the start after its guards: the backlog is queued and drained, then running exactly on success |
| FileMonitor.Monitor.ProcessExistingFiles | manus-backend/core/file_monitor.py:154-211 | each backlog entry is queued once as a `startup` event in order and drained before returning; a failed scan queues nothing and fails |
| FileMonitor.Monitor.Stop | manus-backend/core/file_monitor.py:85-108 | not running: nothing changes. Running: the observer and the consumer task are stopped and the monitor stops running, with the queue left as it was |
| FileMonitor.Monitor.OnEvent | manus-backend/core/file_monitor.py:236-249 | a file event with an allowed suffix is queued with its kind; directories and other files are not |
| FileMonitor.Monitor.QueueFileEvent | manus-backend/core/file_monitor.py:222-234 | an event is queued exactly when the lower-cased suffix of its path is allowed |
| Analysis.MatchIdsInOrder | manus-backend/agent/analysing_processor.py:48-50 | the ids looked up are exactly the match ids, in match order |
| Analysis.HitOf | manus-backend/agent/analysing_processor.py:63-74 | a result carries the match's score and id, the chunk's id, index, content and range, and the document's name, type and path |
| Analysis.CombineSucceeds | manus-backend/agent/analysing_processor.py:54-74 | the join succeeds exactly when every found match has its document |
| Analysis.CombineInOrder | manus-backend/agent/analysing_processor.py:54-74 | results are the found matches' results in match order: result `i` is match `pos[i]` joined with its chunk row and that row's document (all ten fields, as `HitOf` states them); no re-ranking, and a match has a result exactly when its id was found |
| Analysis.CombineErrorStays | manus-backend/agent/analysing_processor.py:54-74 | once the loop raises, later matches do not matter |
| Analysis.ResultsAtMostMatches | manus-backend/agent/analysing_processor.py:56-61 | there are never more results than matches |
| Analysis.AsWrittenNeverReturnsHits | manus-backend/agent/analysing_processor.py:67 | as written, the search succeeds only when no match is found, and then with no results |
| Analysis.AsWrittenRaisesOnJoinedMatch | manus-backend/agent/analysing_processor.py:67 | on one joined match the as-written search raises where the corrected one returns the result |
| Analysis.AnalysingProcessor.constructor | manus-backend/agent/analysing_processor.py:15-24 | the retriever holds the two services and the query function |
| Analysis.AnalysingProcessor.SearchSimilarChunks | manus-backend/agent/analysing_processor.py:35-76 | the search returns the corrected search of the lookup of the match ids |
| Analysis.JoinMatches | manus-backend/agent/analysing_processor.py:54-74 | the loop over the matches equals the corrected search, errors included |
| Reasoning.CharRangeInjective | manus-backend/agent/reasoning_processor.py:55 | for non-negative offsets, different ranges give different `"characters {start}-{end}"` texts |
| Reasoning.Preview | manus-backend/agent/reasoning_processor.py:68-69 | content of at most 200 characters is shown whole; longer content shows its first 200 characters and `...` |
| Reasoning.SourceOf | manus-backend/agent/reasoning_processor.py:59-71 | a source carries the chunk's fields, the 1-based chunk index, the range text and the preview |
| Reasoning.Respond | manus-backend/agent/reasoning_processor.py:43-123 | no chunk: the fixed answer, no sources, no messages, no count. Otherwise one source and one assistant/analyse/completed message per chunk, in order, and the model's answer to the context. The count is the number of chunks |
| Reasoning.ContextHoldsChunk | manus-backend/agent/reasoning_processor.py:56-57 | each chunk's `Document: … Content: …` part occurs in the context the model sees |
| Reasoning.MessageLedger.constructor | manus-backend/services/message.py:1-20 | a new message table is empty |
| Reasoning.MessageLedger.CreateMessage | manus-backend/agent/reasoning_processor.py:73-81 | creating a message appends it |
| Reasoning.ReasoningProcessor.constructor | manus-backend/agent/reasoning_processor.py:20-33 | the builder holds the retriever, the message table and the two model functions |
| Reasoning.ReasoningProcessor.AnswerQuestion | manus-backend/agent/reasoning_processor.py:35-123 | a failed search raises with no message written; otherwise the answer, and the messages appended, are those of the answer specification for the top-10 search |
| Reasoning.ReasoningProcessor.Compose | manus-backend/agent/reasoning_processor.py:43-123 | after retrieval, the answer and the messages appended are those of the answer specification |
| Reasoning.ReasoningProcessor.RecordSources | manus-backend/agent/reasoning_processor.py:54-81 | the loop yields the chunks' context parts and sources, and appends their messages, in order |

## Left out

- External services are inputs. They cover the readers (PyPDF2, python-docx, the text read), MD5, tiktoken, the embedding and chat-completion calls, the index's similarity query and the Supabase client. Their failures are modelled only where the code reacts to them: a reader that raises, and an insert with no row.
- The prompt template and its wording are not modelled: the model's reply is the input `complete(context, question)`. `str(source)` is the input `render`.
- Reasoning.SourceOf: the score is carried as retrieved; `round(score, 4)` on a float is not modelled.
- The characters-per-token fallback (`int(token_index * chars_per_token)`) is the input `estimate`; floating-point division is not modelled. The division by a text with no tokens is modelled, as `ZeroDivision`.
- Chunker.ChunkText: requires `1 <= max_tokens` and `overlap_tokens < max_tokens`; the same bound, `ValidConfig`, is required by `Ingestion.Ingest`, `Ingestion.DocumentProcessor.ProcessDocument`, `Ingestion.DocumentProcessor.StoreChunks` and `FileProcessor.Dispatch`. The settings are read with `int(...)` and no check (agent/settings.py:10-11). With an overlap at or above the window size the window loop never advances, and non-termination is not modelled. A window size of 0 or below is not modelled either: the loop still ends, but its slices `para_tokens[start:end]` are empty (a size of 0 gives no window chunks) or use negative bounds that count from the end of the paragraph.
- Reasoning.MessageLedger.CreateMessage: always appends. A message insert that fails in the message service is not modelled.
- The document and chunk services are modelled on in-memory tables in insertion order. Supabase errors other than a missing row, and ordering ties the database may break differently, are not modelled.
- `get_chunks` (services/chunk.py:35-40) is not modelled: nothing in the pipeline calls it. `get_documents` is modelled.
- The duplicate `ChunkService` in services/document.py:105-227 is modelled once, as `ChunkStore`.
- services/document.py:7 imports `Chunk` from a module that defines only `Document`. That import would fail; the model treats the service as loaded.
- The delete path calls `get_document_by_filename` (agent/document_processor.py:287), which `DocumentService` does not define. It is modelled as the first row with that name.
- Every exception `process_document` and `delete_document` catch is an `Outcome` or `Removal` value. The source only logs them and returns `None`.
- FileMonitor.Monitor.Start: concurrency is not modelled. This covers asyncio tasks, `run_coroutine_threadsafe`, the observer thread, task cancellation and the `sleep` calls. The consumer and the startup loop are sequential: the backlog is queued, then drained. Either interleaving hands the processor the same events in the same FIFO order.
- FileMonitor.Monitor.ProcessExistingFiles: the processed/failed counters and the log lines are not modelled.
- The folder listing and the directory flag of an event are inputs. The observer's own recursive scheduling is not modelled.
- FileMonitor.GlobMatches: glob metacharacters inside an extension are matched literally.
- FileMonitor.FullPath: the folder is taken already normalised. `str(Path(folder) / rel)` drops a trailing slash, `.` components and doubled slashes from the folder (`./docs/` becomes `docs`), and the model does not.
- Text.Lower: `str.lower()` is modelled for ASCII letters only. Extraction.Classify and FileMonitor.ShouldProcess therefore do not fold non-ASCII letters: `.É` is not matched to an allowed `.é`, and an unsupported `.DÉ` is reported as `.DÉ` where the source reports `.dé`.
- Ids.IsUuid: `int(..., 16)` is modelled on ASCII input. It also accepts non-ASCII whitespace around the digits and non-ASCII decimal digits such as `０`; the model refuses both.
- The `'modified'` branch of `_post_process_content` is unimplemented in the source. It is modelled as doing nothing and returning `True`.
- The `Document`/`Chunk` model classes are rows (`DocumentRow`, `ChunkRow`). `uuid4()` and the clock are inputs.

## Findings

| source | as written | input that shows it | evidently intended | confidence | as-written member | corrected member |
|---|---|---|---|---|---|---|
| manus-backend/agent/analysing_processor.py:67 | each joined result reads `document.file_path`, but the `DocumentResponse` the lookup builds (schemas/document.py:26-28) has no such field, so `AttributeError` ends the search on the first found match | one match `d_0` whose chunk row and document row exist | the result carries the document's file path (the row has none, so `None`) | not executed | Analysis.SearchAsWritten (Analysis.AsWrittenNeverReturnsHits, Analysis.AsWrittenRaisesOnJoinedMatch) | Analysis.Search (Analysis.CombineInOrder, Analysis.CombineSucceeds) |
