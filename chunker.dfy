/** The chunker of the ingestion pipeline (`_chunk_text`): a merge pass that
    glues short lines to the line after them, then a pass over the merged
    paragraphs that cuts long ones into overlapping token windows and
    gathers the others in a token buffer. Each chunk's character range is
    recovered by searching the text from the end of the previous chunk.
    The tokenizer and the characters-per-token estimate are inputs. */
module Chunker {
  import opened Wrappers
  import opened Text
  import opened Seqs

  // ---------------------------------------------------------------------
  // Merge pass

  /** Lines with fewer words than this are merged with the next line. */
  const MergeWordLimit := 10

  /** The lines of the text, each stripped, as the merge pass sees them. */
  function StrippedLines(text: string): (ls: seq<string>)
    ensures |ls| >= 1
  {
    var lines := Split(Strip(text), '\n');
    seq(|lines|, k requires 0 <= k < |lines| => Strip(lines[k]))
  }

  /** Stripped line `i` is glued to the next one: it has fewer than ten
      words and the next line is not blank. */
  predicate Glue(ls: seq<string>, i: nat)
    requires i < |ls|
  {
    i + 1 < |ls| && WordCount(ls[i]) < MergeWordLimit && ls[i + 1] != ""
  }

  /** The merge pass from stripped line `i` on: a glued pair is emitted as
      one paragraph; otherwise a non-blank line is emitted alone and a blank
      one dropped. */
  function MergeFrom(ls: seq<string>, i: nat): (merged: seq<string>)
    requires i <= |ls|
    decreases |ls| - i
  {
    if i == |ls| then []
    else if Glue(ls, i) then [ls[i] + "\n" + ls[i + 1]] + MergeFrom(ls, i + 2)
    else if ls[i] != "" then [ls[i]] + MergeFrom(ls, i + 1)
    else MergeFrom(ls, i + 1)
  }

  /** The paragraphs the token pass works on. */
  function Merged(text: string): seq<string> {
    MergeFrom(StrippedLines(text), 0)
  }

  /** The merge loop over the raw lines, index `i` stepping by one or two. */
  method MergeParagraphs(lines: seq<string>) returns (merged: seq<string>)
    ensures merged == MergeFrom(seq(|lines|, k requires 0 <= k < |lines| => Strip(lines[k])), 0)
  {
    ghost var ls := seq(|lines|, k requires 0 <= k < |lines| => Strip(lines[k]));
    merged := [];
    var i := 0;
    while i < |lines|
      invariant 0 <= i <= |lines|
      invariant merged + MergeFrom(ls, i) == MergeFrom(ls, 0)
    {
      var current := Strip(lines[i]);
      assert current == ls[i];
      var glued := false;
      if i + 1 < |lines| {
        var next := Strip(lines[i + 1]);
        assert next == ls[i + 1];
        if WordCount(current) < MergeWordLimit && next != "" {
          GlueStep(ls, i, merged);
          merged := merged + [current + "\n" + next];
          i := i + 2;
          glued := true;
        }
      }
      if !glued {
        if current != "" {
          KeepStep(ls, i, merged);
          merged := merged + [current];
        } else {
          SkipStep(ls, i);
        }
        i := i + 1;
      }
    }
  }

  lemma GlueStep(ls: seq<string>, i: nat, done: seq<string>)
    requires i < |ls| && Glue(ls, i)
    ensures MergeFrom(ls, i) == [ls[i] + "\n" + ls[i + 1]] + MergeFrom(ls, i + 2)
    ensures done + MergeFrom(ls, i) == (done + [ls[i] + "\n" + ls[i + 1]]) + MergeFrom(ls, i + 2)
  {
    var m := MergeFrom(ls, i + 2);
    assert MergeFrom(ls, i) == [ls[i] + "\n" + ls[i + 1]] + m;
    assert done + ([ls[i] + "\n" + ls[i + 1]] + m) == (done + [ls[i] + "\n" + ls[i + 1]]) + m;
  }

  lemma KeepStep(ls: seq<string>, i: nat, done: seq<string>)
    requires i < |ls| && !Glue(ls, i) && ls[i] != ""
    ensures MergeFrom(ls, i) == [ls[i]] + MergeFrom(ls, i + 1)
    ensures done + MergeFrom(ls, i) == (done + [ls[i]]) + MergeFrom(ls, i + 1)
  {
    var m := MergeFrom(ls, i + 1);
    assert MergeFrom(ls, i) == [ls[i]] + m;
    assert done + ([ls[i]] + m) == (done + [ls[i]]) + m;
  }

  lemma SkipStep(ls: seq<string>, i: nat)
    requires i < |ls| && !Glue(ls, i) && ls[i] == ""
    ensures MergeFrom(ls, i) == MergeFrom(ls, i + 1)
  {
  }

  /** No merged paragraph is empty. */
  lemma {:induction false} MergedNonEmpty(ls: seq<string>, i: nat)
    requires i <= |ls|
    ensures forall k :: 0 <= k < |MergeFrom(ls, i)| ==> MergeFrom(ls, i)[k] != ""
    decreases |ls| - i
  {
    if i < |ls| {
      if Glue(ls, i) {
        GlueStep(ls, i, []);
        MergedNonEmpty(ls, i + 2);
      } else if ls[i] != "" {
        KeepStep(ls, i, []);
        MergedNonEmpty(ls, i + 1);
      } else {
        SkipStep(ls, i);
        MergedNonEmpty(ls, i + 1);
      }
    }
  }

  /** Whitespace-only text has no paragraphs. */
  lemma BlankTextNoParagraphs(text: string)
    requires AllSpace(text)
    ensures Merged(text) == []
  {
    StripEmptyIffBlank(text);
    assert StrippedLines(text) == [Strip("")];
    assert AllSpace("");
    StripEmptyIffBlank("");
    SkipStep([""], 0);
  }

  /** The line pieces of a list of paragraphs. */
  function LinesOf(paragraphs: seq<string>): seq<string> {
    if |paragraphs| == 0 then [] else Split(paragraphs[0], '\n') + LinesOf(paragraphs[1..])
  }

  predicate NonBlank(s: string) { s != "" }

  lemma StripKeepsNoNewline(s: string)
    requires '\n' !in s
    ensures '\n' !in Strip(s)
  {
    var i := StripSlice(s);
    var r := Strip(s);
    forall k | 0 <= k < |r| ensures r[k] != '\n' {
      assert r[k] == s[i + k];
    }
  }

  lemma StrippedLinesNoNewline(text: string)
    ensures forall k :: 0 <= k < |StrippedLines(text)| ==> '\n' !in StrippedLines(text)[k]
  {
    var lines := Split(Strip(text), '\n');
    forall k | 0 <= k < |lines| ensures '\n' !in Strip(lines[k]) {
      StripKeepsNoNewline(lines[k]);
    }
  }

  lemma SplitPair(a: string, b: string)
    requires '\n' !in a && '\n' !in b
    ensures Split(a + "\n" + b, '\n') == [a, b]
  {
    SplitAfterPiece(a, '\n', b);
    SplitNoSeparator(b, '\n');
  }

  lemma LinesOfCons(p: string, rest: seq<string>)
    ensures LinesOf([p] + rest) == Split(p, '\n') + LinesOf(rest)
  {
    assert ([p] + rest)[1..] == rest;
  }

  /** The merge pass loses no non-blank line, invents none and keeps their
      order: the non-blank lines of the merged paragraphs are exactly the
      non-blank stripped input lines. */
  lemma {:induction false} MergeKeepsLines(ls: seq<string>, i: nat)
    requires i <= |ls|
    requires forall k :: 0 <= k < |ls| ==> '\n' !in ls[k]
    ensures Filter(LinesOf(MergeFrom(ls, i)), NonBlank) == Filter(ls[i..], NonBlank)
    decreases |ls| - i
  {
    if i < |ls| {
      assert ls[i..] == [ls[i]] + ls[i + 1..];
      if Glue(ls, i) {
        GlueStep(ls, i, []);
        MergeKeepsLines(ls, i + 2);
        var rest := MergeFrom(ls, i + 2);
        LinesOfCons(ls[i] + "\n" + ls[i + 1], rest);
        SplitPair(ls[i], ls[i + 1]);
        assert ls[i..] == [ls[i], ls[i + 1]] + ls[i + 2..];
        FilterConcat([ls[i], ls[i + 1]], LinesOf(rest), NonBlank);
        FilterConcat([ls[i], ls[i + 1]], ls[i + 2..], NonBlank);
      } else {
        MergeKeepsLines(ls, i + 1);
        var rest := MergeFrom(ls, i + 1);
        FilterConcat([ls[i]], ls[i + 1..], NonBlank);
        if ls[i] != "" {
          KeepStep(ls, i, []);
          LinesOfCons(ls[i], rest);
          SplitNoSeparator(ls[i], '\n');
          FilterConcat([ls[i]], LinesOf(rest), NonBlank);
        } else {
          SkipStep(ls, i);
        }
      }
    }
  }

  /** Applied to a whole text: every non-blank line survives the merge. */
  lemma MergedKeepsLines(text: string)
    ensures Filter(LinesOf(Merged(text)), NonBlank) == Filter(StrippedLines(text), NonBlank)
  {
    StrippedLinesNoNewline(text);
    var ls := StrippedLines(text);
    MergeKeepsLines(ls, 0);
    assert ls[0..] == ls;
  }

  // ---------------------------------------------------------------------
  // Token pass

  /** Paragraphs with fewer tokens than this join the buffer unchecked. */
  const ShortParagraph := 30

  datatype Tokenizer = Tokenizer(encode: string -> seq<int>, decode: seq<int> -> string)

  /** One chunk as the chunker returns it. */
  datatype Piece = Piece(text: string, startChar: int, endChar: int, tokenCount: int)

  /** Where a chunk came from: the window starting at a paragraph-local
      token index, or the buffer. It decides the fallback start when the
      search fails. */
  datatype Origin = Window(tokenStart: nat) | Buffered

  /** The characters-per-token division by a zero token count. */
  datatype ChunkError = ZeroDivision

  /** The inputs of one run; `estimate(k)` is `int(k * len(text) /
      len(encode(text)))`, the window fallback. */
  datatype Params = Params(text: string, tok: Tokenizer, estimate: nat -> nat, maxTokens: int, overlap: int)

  /** The settings the model covers: a positive window size, and an overlap
      below it, without which the window loop never advances. Non-positive
      window sizes, which slice with negative bounds, are outside the model. */
  predicate ValidParams(p: Params) {
    p.maxTokens >= 1 && p.overlap < p.maxTokens
  }

  /** The chunks so far with their origins, the token buffer, and the
      search position (`current_start_char`). */
  datatype State = State(pieces: seq<Piece>, origins: seq<Origin>, buffer: seq<int>, cursor: nat)

  const Start := State([], [], [], 0)

  /** Emits chunk text `t`: it starts where `text.find(t, cursor)` finds it;
      when the search fails, the characters-per-token ratio is computed
      (raising on a text with no tokens) and the start falls back to the
      estimate for a window and to the cursor for the buffer. The cursor
      moves to the chunk's end. */
  function Place(p: Params, t: string, origin: Origin, count: int, st: State): Result<State, ChunkError> {
    var f := Find(p.text, t, st.cursor);
    if f == -1 && |p.tok.encode(p.text)| == 0 then Err(ZeroDivision)
    else
      var s: nat := if f != -1 then f else (match origin case Window(k) => p.estimate(k) case Buffered => st.cursor);
      Ok(State(st.pieces + [Piece(t, s, s + |t|, count)], st.origins + [origin], st.buffer, s + |t|))
  }

  /** Emits the buffer as one chunk, its text the stripped decoding. */
  function Commit(p: Params, st: State): Result<State, ChunkError> {
    Place(p, Strip(p.tok.decode(st.buffer)), Buffered, |st.buffer|, st)
  }

  function Min(a: int, b: int): int { if a < b then a else b }

  /** The end of the window starting at token `start`: at most
      `maxTokens` tokens on, and not past the paragraph. */
  function WindowEnd(p: Params, n: nat, start: nat): (end: nat)
    requires ValidParams(p) && start <= n
    ensures start <= end <= n
  {
    Min(start + p.maxTokens, n)
  }

  /** The window starting at token `start`: its stripped decoding is
      emitted as a chunk unless it is blank. */
  function WindowStep(p: Params, toks: seq<int>, start: nat, st: State): Result<State, ChunkError>
    requires ValidParams(p) && start <= |toks|
  {
    var end := WindowEnd(p, |toks|, start);
    var sub := Strip(p.tok.decode(toks[start..end]));
    if sub != "" then Place(p, sub, Window(start), end - start, st) else Ok(st)
  }

  /** The window loop from token `start` of a long paragraph: each window
      is at most `maxTokens` tokens, a window whose stripped decoding is
      blank emits nothing, the loop stops after the window that reaches the
      paragraph's end, and the next window starts `overlap` tokens before
      the previous one ended. */
  function WindowsFrom(p: Params, toks: seq<int>, start: nat, st: State): Result<State, ChunkError>
    requires ValidParams(p)
    decreases |toks| - start
  {
    if start >= |toks| then Ok(st)
    else
      var r := WindowStep(p, toks, start, st);
      var end := WindowEnd(p, |toks|, start);
      if r.Err? || end == |toks| then r
      else WindowsFrom(p, toks, end - p.overlap, r.value)
  }

  /** One merged paragraph: windowed when longer than `maxTokens` (the
      buffer is left as it is); gathered when shorter than 30 tokens;
      otherwise it first commits a non-empty buffer that it would push past
      `maxTokens` and then starts the buffer afresh. */
  function ParaStep(p: Params, para: string, st: State): Result<State, ChunkError>
    requires ValidParams(p)
  {
    var toks := p.tok.encode(para);
    if |toks| > p.maxTokens then WindowsFrom(p, toks, 0, st)
    else if |toks| < ShortParagraph then Ok(st.(buffer := st.buffer + toks))
    else if |st.buffer| + |toks| > p.maxTokens then
      if |st.buffer| > 0 then
        match Commit(p, st)
        case Err(e) => Err(e)
        case Ok(s) => Ok(s.(buffer := toks))
      else Ok(st.(buffer := toks))
    else Ok(st.(buffer := st.buffer + toks))
  }

  function Fold(p: Params, paras: seq<string>, st: State): Result<State, ChunkError>
    requires ValidParams(p)
    decreases |paras|
  {
    if |paras| == 0 then Ok(st)
    else
      match ParaStep(p, paras[0], st)
      case Err(e) => Err(e)
      case Ok(s) => Fold(p, paras[1..], s)
  }

  /** The final flush of a non-empty buffer. */
  function Flush(p: Params, st: State): Result<State, ChunkError> {
    if |st.buffer| > 0 then Commit(p, st) else Ok(st)
  }

  function Run(p: Params): Result<State, ChunkError>
    requires ValidParams(p)
  {
    match Fold(p, Merged(p.text), Start)
    case Err(e) => Err(e)
    case Ok(s) => Flush(p, s)
  }

  /** What the chunker returns for the text, or the error it raises. */
  function Chunks(p: Params): Result<seq<Piece>, ChunkError>
    requires ValidParams(p)
  {
    match Run(p)
    case Err(e) => Err(e)
    case Ok(s) => Ok(s.pieces)
  }

  /** The search with its fallback, in the order the code runs it. */
  method PlaceChunk(p: Params, t: string, origin: Origin, count: int, st: State) returns (r: Result<State, ChunkError>)
    ensures r == Place(p, t, origin, count, st)
  {
    var start := Find(p.text, t, st.cursor);
    if start == -1 {
      if |p.tok.encode(p.text)| == 0 {
        return Err(ZeroDivision);
      }
      start := match origin case Window(k) => p.estimate(k) case Buffered => st.cursor;
    }
    var end := start + |t|;
    r := Ok(State(st.pieces + [Piece(t, start, end, count)], st.origins + [origin], st.buffer, end));
  }

  /** One window of the loop. */
  method PlaceWindow(p: Params, toks: seq<int>, start: nat, st: State) returns (r: Result<State, ChunkError>)
    requires ValidParams(p) && start <= |toks|
    ensures r == WindowStep(p, toks, start, st)
  {
    var end := if start + p.maxTokens < |toks| then start + p.maxTokens else |toks|;
    var subText := Strip(p.tok.decode(toks[start..end]));
    if subText != "" {
      r := PlaceChunk(p, subText, Window(start), end - start, st);
    } else {
      r := Ok(st);
    }
  }

  /** The window loop over a long paragraph's tokens. */
  method WindowChunks(p: Params, toks: seq<int>, st0: State) returns (r: Result<State, ChunkError>)
    requires ValidParams(p)
    ensures r == WindowsFrom(p, toks, 0, st0)
  {
    var st := st0;
    var start: nat := 0;
    var done := false;
    while !done && start < |toks|
      invariant !done ==> WindowsFrom(p, toks, start, st) == WindowsFrom(p, toks, 0, st0)
      invariant done ==> Ok(st) == WindowsFrom(p, toks, 0, st0)
      decreases !done, |toks| - start
    {
      var end := if start + p.maxTokens < |toks| then start + p.maxTokens else |toks|;
      var placed := PlaceWindow(p, toks, start, st);
      if placed.Err? {
        return placed;
      }
      st := placed.value;
      if end == |toks| {
        done := true;
      } else {
        start := end - p.overlap;
      }
    }
    r := Ok(st);
  }

  /** The buffer commit, as the middle branch and the final flush run it. */
  method CommitBuffer(p: Params, st: State) returns (r: Result<State, ChunkError>)
    ensures r == Commit(p, st)
  {
    var chunkText := Strip(p.tok.decode(st.buffer));
    r := PlaceChunk(p, chunkText, Buffered, |st.buffer|, st);
  }

  /** One merged paragraph of the loop in `_chunk_text`. */
  method ChunkParagraph(p: Params, para: string, st: State) returns (r: Result<State, ChunkError>)
    requires ValidParams(p)
    ensures r == ParaStep(p, para, st)
  {
    var paraTokens := p.tok.encode(para);
    if |paraTokens| > p.maxTokens {
      r := WindowChunks(p, paraTokens, st);
    } else if |paraTokens| < ShortParagraph {
      r := Ok(st.(buffer := st.buffer + paraTokens));
    } else if |st.buffer| + |paraTokens| > p.maxTokens {
      var next := st;
      if |st.buffer| > 0 {
        var committed := CommitBuffer(p, st);
        if committed.Err? {
          return Err(committed.error);
        }
        next := committed.value;
      }
      r := Ok(next.(buffer := paraTokens));
    } else {
      r := Ok(st.(buffer := st.buffer + paraTokens));
    }
  }

  /** `_chunk_text`. */
  method ChunkText(text: string, tok: Tokenizer, estimate: nat -> nat, maxTokens: int, overlap: int)
    returns (r: Result<seq<Piece>, ChunkError>)
    requires maxTokens >= 1 && overlap < maxTokens
    ensures r == Chunks(Params(text, tok, estimate, maxTokens, overlap))
  {
    var p := Params(text, tok, estimate, maxTokens, overlap);
    var lines := Split(Strip(text), '\n');
    var merged := MergeParagraphs(lines);
    assert merged == Merged(text);
    var st := Start;
    var k := 0;
    while k < |merged|
      invariant 0 <= k <= |merged|
      invariant Fold(p, merged[k..], st) == Fold(p, merged, Start)
    {
      assert merged[k..][0] == merged[k] && merged[k..][1..] == merged[k + 1..];
      var step := ChunkParagraph(p, merged[k], st);
      if step.Err? {
        return Err(step.error);
      }
      st := step.value;
      k := k + 1;
    }
    var flushed := Ok(st);
    if |st.buffer| > 0 {
      flushed := CommitBuffer(p, st);
    }
    assert flushed == Flush(p, st);
    if flushed.Err? {
      return Err(flushed.error);
    }
    r := Ok(flushed.value.pieces);
  }

  // ---------------------------------------------------------------------
  // Window geometry

  /** The token ranges `[a, b)` the window loop visits over a paragraph of
      `n` tokens, from token `start` on; an independent description of the
      loop's arithmetic. */
  function WindowBounds(n: nat, maxTokens: int, overlap: int, start: nat): seq<(nat, nat)>
    requires maxTokens >= 1 && overlap < maxTokens
    decreases n - start
  {
    if start >= n then []
    else
      var end := Min(start + maxTokens, n);
      [(start, end)] + (if end == n then [] else WindowBounds(n, maxTokens, overlap, end - overlap))
  }

  /** Every window is non-empty, lies inside `[start, n)`, holds at most
      `maxTokens` tokens and is cut short only by the paragraph's end. */
  predicate Bounded(ws: seq<(nat, nat)>, n: nat, maxTokens: int, start: nat) {
    forall k :: 0 <= k < |ws| ==>
      start <= ws[k].0 < ws[k].1 <= n && ws[k].1 - ws[k].0 <= maxTokens
      && (ws[k].1 == n || ws[k].1 == ws[k].0 + maxTokens)
  }

  /** Each window after the first starts `overlap` tokens before the
      previous one ended, and only the last window may reach the end. */
  predicate Chained(ws: seq<(nat, nat)>, n: nat, overlap: int) {
    forall k :: 0 <= k < |ws| - 1 ==> ws[k].1 < n && ws[k + 1].0 == ws[k].1 - overlap
  }

  lemma {:induction false} WindowBoundsShape(n: nat, maxTokens: int, overlap: int, start: nat)
    requires maxTokens >= 1 && overlap < maxTokens
    ensures Bounded(WindowBounds(n, maxTokens, overlap, start), n, maxTokens, start)
    ensures Chained(WindowBounds(n, maxTokens, overlap, start), n, overlap)
    decreases n - start
  {
    var ws := WindowBounds(n, maxTokens, overlap, start);
    if start < n {
      var end := Min(start + maxTokens, n);
      if end < n {
        var next := end - overlap;
        WindowBoundsShape(n, maxTokens, overlap, next);
        var rest := WindowBounds(n, maxTokens, overlap, next);
        assert ws == [(start, end)] + rest;
        forall k | 0 <= k < |ws|
          ensures start <= ws[k].0 < ws[k].1 <= n && ws[k].1 - ws[k].0 <= maxTokens
          ensures ws[k].1 == n || ws[k].1 == ws[k].0 + maxTokens
        {
          if k > 0 {
            assert ws[k] == rest[k - 1];
          }
        }
        forall k | 0 <= k < |ws| - 1 ensures ws[k].1 < n && ws[k + 1].0 == ws[k].1 - overlap {
          if k > 0 {
            assert ws[k] == rest[k - 1] && ws[k + 1] == rest[k];
          } else {
            assert rest[0].0 == next;
          }
        }
      }
    }
  }

  /** With a non-negative overlap the windows start at `start` and the last
      one ends exactly at the paragraph's token count. */
  lemma {:induction false} WindowBoundsReachEnd(n: nat, maxTokens: int, overlap: int, start: nat)
    requires maxTokens >= 1 && 0 <= overlap < maxTokens && start < n
    ensures |WindowBounds(n, maxTokens, overlap, start)| >= 1
    ensures WindowBounds(n, maxTokens, overlap, start)[0].0 == start
    ensures Last(WindowBounds(n, maxTokens, overlap, start)).1 == n
    decreases n - start
  {
    var end := Min(start + maxTokens, n);
    var ws := WindowBounds(n, maxTokens, overlap, start);
    if end < n {
      var rest := WindowBounds(n, maxTokens, overlap, end - overlap);
      WindowBoundsReachEnd(n, maxTokens, overlap, end - overlap);
      assert ws == [(start, end)] + rest;
      assert Last(ws) == Last(rest);
    } else {
      assert ws == [(start, end)];
    }
  }

  function Last<T>(s: seq<T>): T
    requires |s| > 0
  {
    s[|s| - 1]
  }

  /** Token `t` falls in one of the windows. */
  predicate Covered(ws: seq<(nat, nat)>, t: nat) {
    exists k :: 0 <= k < |ws| && ws[k].0 <= t < ws[k].1
  }

  /** With a non-negative overlap every token of the paragraph falls in some
      window. */
  lemma {:induction false} WindowBoundsCover(n: nat, maxTokens: int, overlap: int, start: nat, t: nat)
    requires maxTokens >= 1 && 0 <= overlap < maxTokens && start <= t < n
    ensures Covered(WindowBounds(n, maxTokens, overlap, start), t)
    decreases n - start
  {
    var ws := WindowBounds(n, maxTokens, overlap, start);
    var end := Min(start + maxTokens, n);
    if t < end {
      assert ws[0] == (start, end);
      assert ws[0].0 <= t < ws[0].1;
    } else {
      var next := end - overlap;
      WindowBoundsCover(n, maxTokens, overlap, next, t);
      var rest := WindowBounds(n, maxTokens, overlap, next);
      assert ws == [(start, end)] + rest;
      var k :| 0 <= k < |rest| && rest[k].0 <= t < rest[k].1;
      assert ws[k + 1] == rest[k];
      assert 0 <= k + 1 < |ws| && ws[k + 1].0 <= t < ws[k + 1].1;
    }
  }

  /** The default settings on a 1000-token paragraph: three windows. */
  lemma WindowBoundsExample()
    ensures WindowBounds(1000, 512, 50, 0) == [(0, 512), (462, 974), (924, 1000)]
  {
    assert WindowBounds(1000, 512, 50, 924) == [(924, 1000)];
    assert WindowBounds(1000, 512, 50, 462) == [(462, 974), (924, 1000)];
  }

  /** Window `w` of the tokens decodes to a non-blank chunk text. */
  predicate Emits(p: Params, toks: seq<int>, w: (nat, nat)) {
    w.0 <= w.1 <= |toks| && Strip(p.tok.decode(toks[w.0..w.1])) != ""
  }

  /** The windows from `start` on that produce a chunk. */
  function Emitted(p: Params, toks: seq<int>, start: nat): seq<(nat, nat)>
    requires ValidParams(p)
  {
    Filter(WindowBounds(|toks|, p.maxTokens, p.overlap, start), w => Emits(p, toks, w))
  }

  function WindowOrigins(ws: seq<(nat, nat)>): seq<Origin> {
    seq(|ws|, k requires 0 <= k < |ws| => Window(ws[k].0))
  }

  /** Chunk `pc` is window `w`: its text is the stripped decoding of the
      window's tokens and its token count the window's width. */
  predicate Cut(p: Params, toks: seq<int>, w: (nat, nat), pc: Piece) {
    w.0 <= w.1 <= |toks| && pc.text == Strip(p.tok.decode(toks[w.0..w.1])) && pc.tokenCount == w.1 - w.0
  }

  /** The chunks `pcs` are the windows `e`, one for one. */
  predicate Cuts(p: Params, toks: seq<int>, e: seq<(nat, nat)>, pcs: seq<Piece>)
    decreases |e|
  {
    |pcs| == |e| && (|e| == 0 || (Cut(p, toks, e[0], pcs[0]) && Cuts(p, toks, e[1..], pcs[1..])))
  }

  /** State `s` is `st` with one chunk appended per window of `e`, in
      order, and the buffer untouched. */
  predicate Appended(p: Params, toks: seq<int>, st: State, e: seq<(nat, nat)>, s: State) {
    s.origins == st.origins + WindowOrigins(e)
    && s.buffer == st.buffer
    && |st.pieces| <= |s.pieces|
    && s.pieces[..|st.pieces|] == st.pieces
    && Cuts(p, toks, e, s.pieces[|st.pieces|..])
  }

  /** Read index by index, the chunks are the windows' cuts. */
  lemma {:induction false} CutsIndex(p: Params, toks: seq<int>, e: seq<(nat, nat)>, pcs: seq<Piece>)
    requires Cuts(p, toks, e, pcs)
    ensures |pcs| == |e| && forall j :: 0 <= j < |e| ==> Cut(p, toks, e[j], pcs[j])
    decreases |e|
  {
    if |e| > 0 {
      CutsIndex(p, toks, e[1..], pcs[1..]);
      forall j | 0 <= j < |e| ensures Cut(p, toks, e[j], pcs[j]) {
        if j > 0 {
          assert e[j] == e[1..][j - 1] && pcs[j] == pcs[1..][j - 1];
        }
      }
    }
  }

  /** One step of the emitted windows: the first window when it decodes to
      non-blank text, then those of the rest of the loop. */
  lemma EmittedStep(p: Params, toks: seq<int>, start: nat)
    requires ValidParams(p) && start < |toks|
    ensures var end := WindowEnd(p, |toks|, start);
      Emitted(p, toks, start)
      == (if Emits(p, toks, (start, end)) then [(start, end)] else [])
         + (if end == |toks| then [] else Emitted(p, toks, end - p.overlap))
  {
    var end := WindowEnd(p, |toks|, start);
    var f := (w: (nat, nat)) => Emits(p, toks, w);
    var rest: seq<(nat, nat)> := if end == |toks| then [] else WindowBounds(|toks|, p.maxTokens, p.overlap, end - p.overlap);
    var w: (nat, nat) := (start, end);
    assert WindowBounds(|toks|, p.maxTokens, p.overlap, start) == [w] + rest;
    FilterCons(w, rest, f);
    assert Filter(rest, f) == if end == |toks| then [] else Emitted(p, toks, end - p.overlap);
  }

  lemma AppendedNil(p: Params, toks: seq<int>, st: State)
    ensures Appended(p, toks, st, [], st)
  {
    assert WindowOrigins([]) == [];
    assert st.pieces[|st.pieces|..] == [];
  }

  /** Prepending one window's chunk to an appended run. */
  lemma AppendedCons(p: Params, toks: seq<int>, st: State, w: (nat, nat), pc: Piece, s1: State, e: seq<(nat, nat)>, s: State)
    requires Cut(p, toks, w, pc)
    requires s1.pieces == st.pieces + [pc] && s1.origins == st.origins + [Window(w.0)] && s1.buffer == st.buffer
    requires Appended(p, toks, s1, e, s)
    ensures Appended(p, toks, st, [w] + e, s)
  {
    assert WindowOrigins([w] + e) == [Window(w.0)] + WindowOrigins(e);
    assert s.pieces[..|st.pieces|] == s.pieces[..|s1.pieces|][..|st.pieces|];
    var tail := s.pieces[|st.pieces|..];
    assert tail[0] == s.pieces[..|s1.pieces|][|st.pieces|] == pc;
    assert tail[1..] == s.pieces[|s1.pieces|..];
    assert ([w] + e)[1..] == e;
  }

  /** `s1` is `st` after one window `w`: one chunk appended when the
      window emits, `st` itself otherwise. */
  predicate StepAppends(p: Params, toks: seq<int>, st: State, w: (nat, nat), emits: bool, s1: State) {
    if emits then
      |s1.pieces| == |st.pieces| + 1 && Cut(p, toks, w, s1.pieces[|st.pieces|])
      && s1.pieces == st.pieces + [s1.pieces[|st.pieces|]] && s1.origins == st.origins + [Window(w.0)]
      && s1.buffer == st.buffer
    else s1 == st
  }

  lemma WindowStepAppends(p: Params, toks: seq<int>, start: nat, st: State)
    requires ValidParams(p) && start < |toks|
    ensures var end := WindowEnd(p, |toks|, start);
      WindowStep(p, toks, start, st).Ok? ==>
        StepAppends(p, toks, st, (start, end), Emits(p, toks, (start, end)), WindowStep(p, toks, start, st).value)
  {
  }

  /** One round of the window loop on top of the rest of the loop. */
  lemma AppendedStep(p: Params, toks: seq<int>, st: State, w: (nat, nat), emits: bool, s1: State, erest: seq<(nat, nat)>, s: State)
    requires StepAppends(p, toks, st, w, emits, s1)
    requires Appended(p, toks, s1, erest, s)
    ensures Appended(p, toks, st, (if emits then [w] else []) + erest, s)
  {
    if emits {
      AppendedCons(p, toks, st, w, s1.pieces[|st.pieces|], s1, erest, s);
    } else {
      assert [] + erest == erest;
    }
  }

  /** The window loop emits one chunk per window with a non-blank decoding,
      in window order, after the chunks already there, and leaves the
      buffer alone. */
  lemma {:induction false} WindowsFromEmits(p: Params, toks: seq<int>, start: nat, st: State)
    requires ValidParams(p)
    ensures WindowsFrom(p, toks, start, st).Ok? ==>
      Appended(p, toks, st, Emitted(p, toks, start), WindowsFrom(p, toks, start, st).value)
    decreases |toks| - start
  {
    var r := WindowsFrom(p, toks, start, st);
    if start >= |toks| {
      AppendedNil(p, toks, st);
    } else if r.Ok? {
      var end := WindowEnd(p, |toks|, start);
      var w: (nat, nat) := (start, end);
      EmittedStep(p, toks, start);
      WindowStepAppends(p, toks, start, st);
      var s1 := WindowStep(p, toks, start, st).value;
      var erest: seq<(nat, nat)> := if end == |toks| then [] else Emitted(p, toks, end - p.overlap);
      if end == |toks| {
        assert r.value == s1;
        AppendedNil(p, toks, s1);
      } else {
        assert r == WindowsFrom(p, toks, end - p.overlap, s1);
        WindowsFromEmits(p, toks, end - p.overlap, s1);
      }
      AppendedStep(p, toks, st, w, Emits(p, toks, w), s1, erest, r.value);
    }
  }

  // ---------------------------------------------------------------------
  // Character offsets

  /** Where a chunk starts when the search fails: the estimate for the
      window's first token, or the search position for the buffer. */
  function Fallback(p: Params, origin: Origin, cursor: nat): nat {
    match origin
    case Window(k) => p.estimate(k)
    case Buffered => cursor
  }

  /** The end of the last chunk, where the next search starts. */
  function EndOf(pieces: seq<Piece>): int {
    if |pieces| == 0 then 0 else pieces[|pieces| - 1].endChar
  }

  /** Chunk `k` ends `|text|` characters after its start, and starts where
      searching the text for it from the previous chunk's end finds it, or
      at the fallback when the search fails. */
  predicate PlacedAt(p: Params, pieces: seq<Piece>, origins: seq<Origin>, k: nat)
    requires k < |pieces| == |origins|
  {
    var pc := pieces[k];
    var prev := EndOf(pieces[..k]);
    prev >= 0 && pc.endChar == pc.startChar + |pc.text|
    && var f := Find(p.text, pc.text, prev);
    pc.startChar == if f != -1 then f else Fallback(p, origins[k], prev)
  }

  /** Every chunk so far is placed as `PlacedAt` says. */
  predicate Placed(p: Params, pieces: seq<Piece>, origins: seq<Origin>)
    decreases |pieces|
  {
    |pieces| == |origins|
    && (|pieces| == 0
        || (Placed(p, pieces[..|pieces| - 1], origins[..|origins| - 1])
            && PlacedAt(p, pieces, origins, |pieces| - 1)))
  }

  /** The invariant of the token pass: chunks placed, and the search
      position at the end of the last chunk. */
  predicate Offsets(p: Params, st: State) {
    Placed(p, st.pieces, st.origins) && st.cursor == EndOf(st.pieces)
  }

  lemma OffsetsStart(p: Params)
    ensures Offsets(p, Start)
  {
  }

  /** Emitting a chunk keeps the invariant. */
  lemma PlaceKeepsOffsets(p: Params, t: string, origin: Origin, count: int, st: State)
    requires Offsets(p, st)
    ensures Place(p, t, origin, count, st).Ok? ==> Offsets(p, Place(p, t, origin, count, st).value)
  {
    var r := Place(p, t, origin, count, st);
    if r.Ok? {
      var s := r.value;
      var n := |st.pieces|;
      assert s.pieces[..n] == st.pieces && s.origins[..n] == st.origins;
      assert PlacedAt(p, s.pieces, s.origins, n);
    }
  }

  lemma WindowStepKeepsOffsets(p: Params, toks: seq<int>, start: nat, st: State)
    requires ValidParams(p) && start <= |toks| && Offsets(p, st)
    ensures WindowStep(p, toks, start, st).Ok? ==> Offsets(p, WindowStep(p, toks, start, st).value)
  {
    var end := WindowEnd(p, |toks|, start);
    PlaceKeepsOffsets(p, Strip(p.tok.decode(toks[start..end])), Window(start), end - start, st);
  }

  lemma {:induction false} WindowsKeepOffsets(p: Params, toks: seq<int>, start: nat, st: State)
    requires ValidParams(p) && Offsets(p, st)
    ensures WindowsFrom(p, toks, start, st).Ok? ==> Offsets(p, WindowsFrom(p, toks, start, st).value)
    decreases |toks| - start
  {
    if start < |toks| {
      var end := WindowEnd(p, |toks|, start);
      WindowStepKeepsOffsets(p, toks, start, st);
      var r := WindowStep(p, toks, start, st);
      if r.Ok? && end != |toks| {
        WindowsKeepOffsets(p, toks, end - p.overlap, r.value);
      }
    }
  }

  lemma ParaStepKeepsOffsets(p: Params, para: string, st: State)
    requires ValidParams(p) && Offsets(p, st)
    ensures ParaStep(p, para, st).Ok? ==> Offsets(p, ParaStep(p, para, st).value)
  {
    var toks := p.tok.encode(para);
    if |toks| > p.maxTokens {
      WindowsKeepOffsets(p, toks, 0, st);
    } else {
      PlaceKeepsOffsets(p, Strip(p.tok.decode(st.buffer)), Buffered, |st.buffer|, st);
    }
  }

  lemma {:induction false} FoldKeepsOffsets(p: Params, paras: seq<string>, st: State)
    requires ValidParams(p) && Offsets(p, st)
    ensures Fold(p, paras, st).Ok? ==> Offsets(p, Fold(p, paras, st).value)
    decreases |paras|
  {
    if |paras| > 0 {
      ParaStepKeepsOffsets(p, paras[0], st);
      var r := ParaStep(p, paras[0], st);
      if r.Ok? {
        FoldKeepsOffsets(p, paras[1..], r.value);
      }
    }
  }

  /** The chunks of a successful run satisfy the offset invariant. */
  lemma RunOffsets(p: Params)
    requires ValidParams(p)
    ensures Run(p).Ok? ==> Offsets(p, Run(p).value)
  {
    OffsetsStart(p);
    FoldKeepsOffsets(p, Merged(p.text), Start);
    var r := Fold(p, Merged(p.text), Start);
    if r.Ok? {
      PlaceKeepsOffsets(p, Strip(p.tok.decode(r.value.buffer)), Buffered, |r.value.buffer|, r.value);
    }
  }

  /** Read index by index, every chunk is placed. */
  lemma {:induction false} PlacedIndex(p: Params, pieces: seq<Piece>, origins: seq<Origin>)
    requires Placed(p, pieces, origins)
    ensures forall k :: 0 <= k < |pieces| ==> PlacedAt(p, pieces, origins, k)
    decreases |pieces|
  {
    if |pieces| > 0 {
      var n := |pieces| - 1;
      PlacedIndex(p, pieces[..n], origins[..n]);
      forall k | 0 <= k < n ensures PlacedAt(p, pieces, origins, k) {
        assert pieces[..n][k] == pieces[k] && origins[..n][k] == origins[k];
        assert pieces[..n][..k] == pieces[..k];
        assert PlacedAt(p, pieces[..n], origins[..n], k);
      }
    }
  }

  /** What the offsets of the returned chunks mean: every chunk ends
      `|text|` characters after its start; a chunk the search found starts
      at or after the previous chunk's end, no earlier occurrence from there
      exists, and the text holds the chunk's text at its range; a chunk the
      search missed starts at the fallback. */
  lemma ChunkOffsets(p: Params, k: nat)
    requires ValidParams(p) && Run(p).Ok? && k < |Run(p).value.pieces|
    ensures |Run(p).value.origins| == |Run(p).value.pieces|
    ensures var s := Run(p).value;
      var pc := s.pieces[k];
      var prev := EndOf(s.pieces[..k]);
      prev >= 0
      && pc.endChar == pc.startChar + |pc.text|
      && (Find(p.text, pc.text, prev) != -1 ==>
            prev <= pc.startChar && pc.endChar <= |p.text| && p.text[pc.startChar..pc.endChar] == pc.text
            && forall j :: prev <= j < pc.startChar ==> !OccursAt(p.text, pc.text, j))
      && (Find(p.text, pc.text, prev) == -1 ==> pc.startChar == Fallback(p, s.origins[k], prev))
  {
    var s := Run(p).value;
    RunOffsets(p);
    assert |s.origins| == |s.pieces|;
    PlacedIndex(p, s.pieces, s.origins);
    assert PlacedAt(p, s.pieces, s.origins, k);
    var prev := EndOf(s.pieces[..k]);
    FindCorrect(p.text, s.pieces[k].text, prev);
  }

  // ---------------------------------------------------------------------
  // Buffer policy

  /** A paragraph of fewer than 30 tokens (and no more than `maxTokens`)
      joins the buffer with no size check, whatever the buffer holds. */
  lemma ShortParagraphBuffered(p: Params, para: string, st: State)
    requires ValidParams(p)
    requires |p.tok.encode(para)| < ShortParagraph && |p.tok.encode(para)| <= p.maxTokens
    ensures ParaStep(p, para, st) == Ok(st.(buffer := st.buffer + p.tok.encode(para)))
  {
  }

  /** The buffer is emitted as one chunk: its stripped decoding, with the
      buffer's token count, after the chunks already there. */
  lemma CommitEmitsBuffer(p: Params, st: State)
    ensures Commit(p, st).Ok? ==>
      var s := Commit(p, st).value;
      |s.pieces| == |st.pieces| + 1 && s.pieces[..|st.pieces|] == st.pieces
      && s.pieces[|st.pieces|].text == Strip(p.tok.decode(st.buffer))
      && s.pieces[|st.pieces|].tokenCount == |st.buffer|
      && s.buffer == st.buffer
    ensures Commit(p, st).Err? <==>
      Find(p.text, Strip(p.tok.decode(st.buffer)), st.cursor) == -1 && |p.tok.encode(p.text)| == 0
  {
    var r := Commit(p, st);
    if r.Ok? {
      assert r.value.pieces[..|st.pieces|] == st.pieces;
    }
  }

  /** A paragraph of 30 to `maxTokens` tokens that would push a non-empty
      buffer past `maxTokens` first commits the buffer, then restarts the
      buffer with its own tokens. */
  lemma MidParagraphCommits(p: Params, para: string, st: State)
    requires ValidParams(p)
    requires ShortParagraph <= |p.tok.encode(para)| <= p.maxTokens
    requires |st.buffer| > 0 && |st.buffer| + |p.tok.encode(para)| > p.maxTokens
    ensures ParaStep(p, para, st).Ok? <==> Commit(p, st).Ok?
    ensures ParaStep(p, para, st).Ok? ==>
      var s := ParaStep(p, para, st).value;
      |s.pieces| == |st.pieces| + 1 && s.pieces[..|st.pieces|] == st.pieces
      && s.pieces[|st.pieces|].tokenCount == |st.buffer|
      && s.buffer == p.tok.encode(para)
  {
    CommitEmitsBuffer(p, st);
  }

  /** A paragraph of 30 to `maxTokens` tokens that fits joins the buffer;
      one that does not fit an empty buffer replaces it without emitting. */
  lemma MidParagraphBuffered(p: Params, para: string, st: State)
    requires ValidParams(p)
    requires ShortParagraph <= |p.tok.encode(para)| <= p.maxTokens
    requires |st.buffer| == 0 || |st.buffer| + |p.tok.encode(para)| <= p.maxTokens
    ensures ParaStep(p, para, st) == Ok(st.(buffer := st.buffer + p.tok.encode(para)))
  {
    if |st.buffer| == 0 {
      assert st.buffer + p.tok.encode(para) == p.tok.encode(para);
    }
  }

  /** A paragraph longer than `maxTokens` is windowed while the buffer
      stays pending: the earlier buffered paragraphs reach the output after
      this paragraph's windows, out of document order. Each window chunk has
      non-blank text and between 1 and `maxTokens` tokens. */
  lemma LongParagraphWindowed(p: Params, para: string, st: State)
    requires ValidParams(p) && |p.tok.encode(para)| > p.maxTokens
    ensures ParaStep(p, para, st).Ok? ==>
      var s := ParaStep(p, para, st).value;
      s.buffer == st.buffer
      && |st.pieces| <= |s.pieces| && s.pieces[..|st.pieces|] == st.pieces
      && forall j :: |st.pieces| <= j < |s.pieces| ==>
           s.pieces[j].text != "" && 1 <= s.pieces[j].tokenCount <= p.maxTokens
  {
    var toks := p.tok.encode(para);
    var r := ParaStep(p, para, st);
    if r.Ok? {
      var s := r.value;
      WindowsFromEmits(p, toks, 0, st);
      var e := Emitted(p, toks, 0);
      var tail := s.pieces[|st.pieces|..];
      CutsIndex(p, toks, e, tail);
      var ws := WindowBounds(|toks|, p.maxTokens, p.overlap, 0);
      WindowBoundsShape(|toks|, p.maxTokens, p.overlap, 0);
      FilterMembers(ws, (w: (nat, nat)) => Emits(p, toks, w));
      forall j | |st.pieces| <= j < |s.pieces|
        ensures s.pieces[j].text != "" && 1 <= s.pieces[j].tokenCount <= p.maxTokens
      {
        var i := j - |st.pieces|;
        assert tail[i] == s.pieces[j];
        assert Cut(p, toks, e[i], tail[i]);
        assert e[i] in ws && Emits(p, toks, e[i]);
        var k :| 0 <= k < |ws| && ws[k] == e[i];
      }
    }
  }

  /** The final flush emits a non-empty buffer as the last chunk and leaves
      the chunks alone when the buffer is empty. */
  lemma FlushEmitsBuffer(p: Params, st: State)
    ensures |st.buffer| == 0 ==> Flush(p, st) == Ok(st)
    ensures |st.buffer| > 0 && Flush(p, st).Ok? ==>
      var s := Flush(p, st).value;
      |s.pieces| == |st.pieces| + 1 && s.pieces[..|st.pieces|] == st.pieces
      && s.pieces[|st.pieces|].tokenCount == |st.buffer|
  {
    CommitEmitsBuffer(p, st);
  }

  /** Short paragraphs are never checked against `maxTokens`: two of them
      that together exceed it still end up in one buffered chunk whose token
      count is above `maxTokens`. */
  lemma BufferedChunkCanExceed(p: Params, a: string, b: string, st: State)
    requires ValidParams(p) && |st.buffer| == 0
    requires |p.tok.encode(a)| < ShortParagraph && |p.tok.encode(a)| <= p.maxTokens
    requires |p.tok.encode(b)| < ShortParagraph && |p.tok.encode(b)| <= p.maxTokens
    requires |p.tok.encode(a)| + |p.tok.encode(b)| > p.maxTokens
    ensures Fold(p, [a, b], st) == Ok(st.(buffer := p.tok.encode(a) + p.tok.encode(b)))
    ensures Fold(p, [a, b], st).Ok? && Flush(p, Fold(p, [a, b], st).value).Ok? ==>
      var s := Flush(p, Fold(p, [a, b], st).value).value;
      s.pieces[|st.pieces|].tokenCount > p.maxTokens
  {
    var s1 := st.(buffer := p.tok.encode(a));
    ShortParagraphBuffered(p, a, st);
    assert st.buffer + p.tok.encode(a) == p.tok.encode(a);
    ShortParagraphBuffered(p, b, s1);
    assert [a, b][1..] == [b];
    assert Fold(p, [b], s1) == ParaStep(p, b, s1);
    FlushEmitsBuffer(p, s1.(buffer := p.tok.encode(a) + p.tok.encode(b)));
  }

  /** Whitespace-only text produces no chunks. */
  lemma BlankTextNoChunks(p: Params)
    requires ValidParams(p) && AllSpace(p.text)
    ensures Chunks(p) == Ok([])
  {
    BlankTextNoParagraphs(p.text);
  }

  /** A one-line text with something on it is one paragraph: the stripped
      line. */
  lemma SingleLineMerged(text: string)
    requires '\n' !in text && Strip(text) != ""
    ensures Merged(text) == [Strip(text)]
  {
    var t := Strip(text);
    StripKeepsNoNewline(text);
    SplitNoSeparator(t, '\n');
    StripIdempotent(text);
    assert StrippedLines(text) == [t];
    KeepStep([t], 0, []);
  }

  /** The stripped text is found in the text. */
  lemma StripFound(text: string)
    ensures Find(text, Strip(text), 0) >= 0
    ensures OccursAt(text, Strip(text), Find(text, Strip(text), 0))
  {
    var i := StripSlice(text);
    assert OccursAt(text, Strip(text), i);
    FindCorrect(text, Strip(text), 0);
  }

  /** A single paragraph that fits one chunk only fills the buffer. */
  lemma FoldOneParagraph(p: Params, t: string)
    requires ValidParams(p) && 1 <= |p.tok.encode(t)| <= p.maxTokens
    ensures Fold(p, [t], Start) == Ok(Start.(buffer := p.tok.encode(t)))
  {
    var toks := p.tok.encode(t);
    if |toks| < ShortParagraph {
      ShortParagraphBuffered(p, t, Start);
    } else {
      MidParagraphBuffered(p, t, Start);
    }
    assert Start.buffer + toks == toks;
    assert [t][1..] == [];
  }

  /** Flushing a buffer whose stripped decoding occurs in the text, with
      no chunk before it, gives that one chunk at the occurrence. */
  lemma FlushOnlyChunk(p: Params, s: State, t: string)
    requires s.pieces == [] && s.cursor == 0 && |s.buffer| > 0
    requires Strip(p.tok.decode(s.buffer)) == t && Find(p.text, t, 0) >= 0
    ensures var f := Find(p.text, t, 0);
      Flush(p, s).Ok? && Flush(p, s).value.pieces == [Piece(t, f, f + |t|, |s.buffer|)]
  {
    assert Flush(p, s) == Place(p, t, Buffered, |s.buffer|, s);
  }

  /** A one-line text whose stripped line the tokenizer decodes back
      unchanged (the round trip is a hypothesis about the tokenizer, not a
      property of the code) and that fits one chunk becomes exactly one
      chunk: the stripped line, at its first occurrence in the text. */
  lemma SingleLineChunk(p: Params)
    requires ValidParams(p) && '\n' !in p.text && Strip(p.text) != ""
    requires 1 <= |p.tok.encode(Strip(p.text))| <= p.maxTokens
    requires p.tok.decode(p.tok.encode(Strip(p.text))) == Strip(p.text)
    ensures Find(p.text, Strip(p.text), 0) >= 0
    ensures OccursAt(p.text, Strip(p.text), Find(p.text, Strip(p.text), 0))
    ensures var t := Strip(p.text);
      var f := Find(p.text, t, 0);
      Chunks(p) == Ok([Piece(t, f, f + |t|, |p.tok.encode(t)|)])
  {
    var t := Strip(p.text);
    var toks := p.tok.encode(t);
    SingleLineMerged(p.text);
    StripFound(p.text);
    FoldOneParagraph(p, t);
    var s := Start.(buffer := toks);
    StripIdempotent(p.text);
    FlushOnlyChunk(p, s, t);
    assert Run(p) == Flush(p, s);
  }
}
