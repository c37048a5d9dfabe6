/** The retriever: the index's matches for a query joined back to their
    chunk rows and documents, in the index's order. The embedding call and
    the similarity query are one input function from the query text and
    `top_k` to the matches. */
module Analysis {
  import opened Wrappers
  import opened Seqs
  import ChunkStore
  import DocumentStore

  /** One entry of the index's answer: a vector id and its score. */
  datatype Match = Match(id: string, score: real)

  /** One result dictionary of `search_similar_chunks`. */
  datatype Hit = Hit(
    similarityScore: real,
    documentName: string,
    documentType: string,
    documentFilepath: Option<string>,
    chunkId: string,
    chunkIndex: int,
    content: string,
    startCharIndex: int,
    endCharIndex: int,
    vectorId: string)

  /** The exceptions the join can raise: iterating the `None` the lookup
      returns when no row matches, reading a field of a missing document,
      and reading `file_path`, which the document record does not have. */
  datatype SearchError = NotIterable | NoDocument(vectorId: string) | NoFilePath(vectorId: string)

  /** `[match['id'] for match in matches]`. */
  function MatchIds(matches: seq<Match>): seq<string> {
    seq(|matches|, k requires 0 <= k < |matches| => matches[k].id)
  }

  /** The ids looked up are the match ids, in match order. */
  lemma MatchIdsInOrder(matches: seq<Match>)
    ensures |MatchIds(matches)| == |matches|
    ensures forall k :: 0 <= k < |matches| ==> MatchIds(matches)[k] == matches[k].id
    ensures forall id :: id in MatchIds(matches) <==> exists k :: 0 <= k < |matches| && matches[k].id == id
  {
    var ids := MatchIds(matches);
    forall id | id in ids ensures exists k :: 0 <= k < |matches| && matches[k].id == id {
      var k :| 0 <= k < |ids| && ids[k] == id;
    }
  }

  /** The `next(...)` over the joined rows: the first one whose chunk has the id. */
  function DetailFor(details: seq<ChunkStore.Joined>, id: string): Option<ChunkStore.Joined> {
    First(details, (j: ChunkStore.Joined) => j.chunk.vectorId == id)
  }

  predicate Found(details: seq<ChunkStore.Joined>, m: Match) {
    DetailFor(details, m.id).Some?
  }

  /** The result for a match joined with chunk `c` of document `d`. */
  function HitOf(m: Match, c: ChunkStore.ChunkRow, d: DocumentStore.DocumentRow): (h: Hit)
    ensures h.similarityScore == m.score && h.vectorId == m.id
    ensures h.documentName == d.filename && h.documentType == d.fileType && h.documentFilepath == d.filePath
    ensures h.chunkId == c.id && h.chunkIndex == c.chunkIndex && h.content == c.content
    ensures h.startCharIndex == c.startCharIndex && h.endCharIndex == c.endCharIndex
  {
    Hit(m.score, d.filename, d.fileType, d.filePath, c.id, c.chunkIndex, c.content, c.startCharIndex, c.endCharIndex, m.id)
  }

  /** One turn of the loop: nothing for an unmatched id, an error for a
      match whose document is missing, otherwise its result. `asWritten`
      selects the source's reading of `file_path`, which raises. */
  function Step(m: Match, details: seq<ChunkStore.Joined>, asWritten: bool): Result<seq<Hit>, SearchError> {
    match DetailFor(details, m.id)
    case None => Ok([])
    case Some(j) =>
      match j.document
      case None => Err(NoDocument(m.id))
      case Some(d) => if asWritten then Err(NoFilePath(m.id)) else Ok([HitOf(m, j.chunk, d)])
  }

  /** The loop over the matches, in order; the first error ends it. */
  function Combine(matches: seq<Match>, details: seq<ChunkStore.Joined>, asWritten: bool): Result<seq<Hit>, SearchError>
    decreases |matches|
  {
    if |matches| == 0 then Ok([])
    else
      var prev := Combine(matches[..|matches| - 1], details, asWritten);
      if prev.Err? then prev
      else
        var step := Step(matches[|matches| - 1], details, asWritten);
        if step.Err? then Err(step.error) else Ok(prev.value + step.value)
  }

  /** `search_similar_chunks` after the lookup, with the document's file
      path carried from its row. No match, no lookup result needed; matches
      with no result raise when the loop starts. */
  function Search(matches: seq<Match>, details: Option<seq<ChunkStore.Joined>>): Result<seq<Hit>, SearchError> {
    if |matches| == 0 then Ok([])
    else if details.None? then Err(NotIterable)
    else Combine(matches, details.value, false)
  }

  /** `search_similar_chunks` as written: the same loop, reading a
      `file_path` attribute the document record lacks. */
  function SearchAsWritten(matches: seq<Match>, details: Option<seq<ChunkStore.Joined>>): Result<seq<Hit>, SearchError> {
    if |matches| == 0 then Ok([])
    else if details.None? then Err(NotIterable)
    else Combine(matches, details.value, true)
  }

  /** Every id found in the lookup is found on a row with a document. */
  predicate AllJoined(matches: seq<Match>, details: seq<ChunkStore.Joined>) {
    forall k :: 0 <= k < |matches| && Found(details, matches[k]) ==> DetailFor(details, matches[k].id).value.document.Some?
  }

  /** The join succeeds exactly when every found match has its document. */
  lemma {:induction false} CombineSucceeds(matches: seq<Match>, details: seq<ChunkStore.Joined>)
    ensures Combine(matches, details, false).Ok? <==> AllJoined(matches, details)
    decreases |matches|
  {
    if |matches| > 0 {
      var init := matches[..|matches| - 1];
      CombineSucceeds(init, details);
      forall k | 0 <= k < |init| ensures init[k] == matches[k] {
      }
    }
  }

  /** The results are the found matches' results, in match order: result
      `i` is the match `pos[i]` joined with its chunk row and document, the
      positions increase, and a match
      has a result exactly when its id was found. Nothing is re-ranked. */
  lemma {:induction false} CombineInOrder(matches: seq<Match>, details: seq<ChunkStore.Joined>) returns (pos: seq<nat>)
    requires Combine(matches, details, false).Ok?
    ensures var hits := Combine(matches, details, false).value;
      |pos| == |hits|
      && (forall i, j :: 0 <= i < j < |pos| ==> pos[i] < pos[j])
      && (forall i :: 0 <= i < |pos| ==>
            (pos[i] < |matches| && Found(details, matches[pos[i]])
             && DetailFor(details, matches[pos[i]].id).value.document.Some?
             && hits[i] == HitOf(matches[pos[i]], DetailFor(details, matches[pos[i]].id).value.chunk,
                                 DetailFor(details, matches[pos[i]].id).value.document.value)))
      && (forall k :: 0 <= k < |matches| && Found(details, matches[k]) ==> k in pos)
    decreases |matches|
  {
    if |matches| == 0 {
      pos := [];
    } else {
      var n := |matches| - 1;
      var init := matches[..n];
      var prev := CombineInOrder(init, details);
      forall k | 0 <= k < n ensures init[k] == matches[k] {
      }
      var m := matches[n];
      if Found(details, m) {
        pos := prev + [n];
        var j := DetailFor(details, m.id).value;
        assert Step(m, details, false) == Ok([HitOf(m, j.chunk, j.document.value)]);
      } else {
        pos := prev;
      }
    }
  }

  /** Once the loop has raised, the later matches do not matter. */
  lemma {:induction false} CombineErrorStays(matches: seq<Match>, details: seq<ChunkStore.Joined>, asWritten: bool, i: nat)
    requires i <= |matches|
    requires Combine(matches[..i], details, asWritten).Err?
    ensures Combine(matches, details, asWritten) == Combine(matches[..i], details, asWritten)
    decreases |matches| - i
  {
    if i < |matches| {
      assert matches[..i + 1][..i] == matches[..i];
      CombineErrorStays(matches, details, asWritten, i + 1);
    } else {
      assert matches[..i] == matches;
    }
  }

  /** There are never more results than matches. */
  lemma ResultsAtMostMatches(matches: seq<Match>, details: Option<seq<ChunkStore.Joined>>)
    requires Search(matches, details).Ok?
    ensures |Search(matches, details).value| <= |matches|
  {
    if |matches| > 0 {
      var pos := CombineInOrder(matches, details.value);
      PositionsBound(pos, |matches|);
    }
  }

  /** Strictly increasing positions below `n` are at most `n` many. */
  lemma {:induction false} PositionsBound(pos: seq<nat>, n: nat)
    requires forall i, j :: 0 <= i < j < |pos| ==> pos[i] < pos[j]
    requires forall i :: 0 <= i < |pos| ==> pos[i] < n
    ensures |pos| <= n
  {
    if |pos| > 0 {
      var last := pos[|pos| - 1];
      PositionsBound(pos[..|pos| - 1], last);
    }
  }

  /** As written, any match that is joined to a row makes the search raise:
      it succeeds only when no match has a result. */
  lemma {:induction false} AsWrittenNeverReturnsHits(matches: seq<Match>, details: seq<ChunkStore.Joined>)
    ensures Combine(matches, details, true).Ok? ==> Combine(matches, details, true).value == []
    ensures Combine(matches, details, true).Ok? <==> forall k :: 0 <= k < |matches| ==> !Found(details, matches[k])
    decreases |matches|
  {
    if |matches| > 0 {
      var init := matches[..|matches| - 1];
      AsWrittenNeverReturnsHits(init, details);
      forall k | 0 <= k < |init| ensures init[k] == matches[k] {
      }
    }
  }

  /** A concrete case: one match whose chunk row and document exist. The
      search as written raises where the intended one returns the result. */
  lemma AsWrittenRaisesOnJoinedMatch()
    ensures var c := ChunkStore.ChunkRow("c", "d", 0, "text", 1, 0, 4, "d_0", 0, 0);
      var d := DocumentStore.DocumentRow("d", "a.txt", None, "txt", "h", 1, 0, 0);
      var details := Some([ChunkStore.Joined(c, Some(d))]);
      SearchAsWritten([Match("d_0", 0.5)], details) == Err(NoFilePath("d_0"))
      && Search([Match("d_0", 0.5)], details) == Ok([HitOf(Match("d_0", 0.5), c, d)])
  {
    var c := ChunkStore.ChunkRow("c", "d", 0, "text", 1, 0, 4, "d_0", 0, 0);
    var d := DocumentStore.DocumentRow("d", "a.txt", None, "txt", "h", 1, 0, 0);
    var details := [ChunkStore.Joined(c, Some(d))];
    var m := Match("d_0", 0.5);
    var ms := [m];
    assert ms[..0] == [];
    assert Combine(ms[..0], details, true) == Ok([]) && Combine(ms[..0], details, false) == Ok([]);
    assert DetailFor(details, "d_0") == Some(details[0]) by {
      assert FirstIndex(details, (j: ChunkStore.Joined) => j.chunk.vectorId == "d_0") == 0;
    }
    assert Step(m, details, true) == Err(NoFilePath("d_0"));
    assert Step(m, details, false) == Ok([HitOf(m, c, d)]);
    assert [] + [HitOf(m, c, d)] == [HitOf(m, c, d)];
  }

  class AnalysingProcessor {
    const chunks: ChunkStore.ChunkService
    const documents: DocumentStore.DocumentService
    /** The embedding of the query followed by the index's similarity query. */
    const retrieve: (string, nat) -> seq<Match>

    constructor (c: ChunkStore.ChunkService, d: DocumentStore.DocumentService, r: (string, nat) -> seq<Match>)
      ensures chunks == c && documents == d && retrieve == r
    {
      chunks := c;
      documents := d;
      retrieve := r;
    }

    /** What a search for `query` returns against the current tables. */
    ghost function Searched(query: string, topK: nat): Result<seq<Hit>, SearchError>
      reads chunks, documents
    {
      var matches := retrieve(query, topK);
      Search(matches, chunks.GetChunksByVectorIds(MatchIds(matches), documents.rows))
    }

    /** `search_similar_chunks`. */
    method SearchSimilarChunks(query: string, topK: nat) returns (r: Result<seq<Hit>, SearchError>)
      ensures r == Searched(query, topK)
    {
      var matches := retrieve(query, topK);
      var ids := MatchIds(matches);
      var details := chunks.GetChunksByVectorIds(ids, documents.rows);
      r := JoinMatches(matches, details);
    }
  }

  /** The loop of `search_similar_chunks` over the matches. */
  method JoinMatches(matches: seq<Match>, details: Option<seq<ChunkStore.Joined>>) returns (r: Result<seq<Hit>, SearchError>)
    ensures r == Search(matches, details)
  {
    var results: seq<Hit> := [];
    var i := 0;
    while i < |matches|
      invariant 0 <= i <= |matches|
      invariant details.Some? ==> Combine(matches[..i], details.value, false) == Ok(results)
      invariant details.None? ==> i == 0 && results == []
    {
      if details.None? {
        return Err(NotIterable);
      }
      var m := matches[i];
      assert matches[..i + 1][..i] == matches[..i];
      assert matches[..i + 1][i] == m;
      var detail := DetailFor(details.value, m.id);
      if detail.Some? {
        if detail.value.document.None? {
          assert Combine(matches[..i + 1], details.value, false) == Err(NoDocument(m.id));
          CombineErrorStays(matches, details.value, false, i + 1);
          return Err(NoDocument(m.id));
        }
        assert Step(m, details.value, false) == Ok([HitOf(m, detail.value.chunk, detail.value.document.value)]);
        results := results + [HitOf(m, detail.value.chunk, detail.value.document.value)];
      } else {
        assert Step(m, details.value, false) == Ok([]);
        assert results + [] == results;
      }
      i := i + 1;
    }
    assert matches[..|matches|] == matches;
    r := Ok(results);
  }
}
