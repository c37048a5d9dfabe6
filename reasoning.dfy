/** The answer builder: the retrieved chunks become the sources shown to
    the user, one audit message each, and the context the language model
    answers from. The model call (prompt template and completion) and the
    `str()` of a source are input functions. */
module Reasoning {
  import opened Wrappers
  import opened Text
  import Analysis

  /** How many chunks a question retrieves. */
  const TopK: nat := 10

  const NoAnswer := "I couldn't find any relevant information in the uploaded documents."

  const Separator := "\n---\n"

  /** The longest content shown whole in a source. */
  const PreviewLength: nat := 200

  datatype Role = User | Assistant | System
  datatype Task = Chat | Summarize | Analyse
  datatype Status = Pending | Completed | Failed | InProgress

  /** The fields of the asking message the builder reads. */
  datatype Question = Question(chatId: string, content: string)

  /** A message record as the builder creates it. */
  datatype MessageCreate = MessageCreate(
    chatId: string,
    chunkId: Option<string>,
    role: Role,
    content: string,
    task: Task,
    status: Status)

  /** One entry of `sources`. */
  datatype Source = Source(
    documentName: string,
    documentType: string,
    documentFilepath: Option<string>,
    chunkId: string,
    chunkIndex: int,
    startCharIndex: int,
    endCharIndex: int,
    characterRange: string,
    similarityScore: real,
    contentPreview: string)

  /** The returned dictionary; `total_sources_found` is absent from the
      empty answer. */
  datatype Answer = Answer(answer: string, sources: seq<Source>, question: string, totalSourcesFound: Option<nat>)

  /** `"characters {start}-{end}"`. */
  function CharRange(start: int, end: int): string {
    "characters " + IntToString(start) + "-" + IntToString(end)
  }

  /** In a digit string followed by `-`, the first `-` sits right after
      the digits. */
  lemma DashAfterDigits(a: string, b: string)
    requires IsDigits(a)
    ensures (a + "-" + b)[|a|] == '-'
    ensures forall i :: 0 <= i < |a| ==> (a + "-" + b)[i] != '-'
  {
  }

  /** Two digit strings each followed by `-` and a tail: equal joined
      strings have equal heads and equal tails. */
  lemma DashSplits(a1: string, b1: string, a2: string, b2: string)
    requires IsDigits(a1) && IsDigits(a2)
    requires a1 + "-" + b1 == a2 + "-" + b2
    ensures a1 == a2 && b1 == b2
  {
    var x := a1 + "-" + b1;
    DashAfterDigits(a1, b1);
    DashAfterDigits(a2, b2);
    assert |a1| == |a2|;
    assert a1 == x[..|a1|];
    assert a2 == x[..|a2|];
    assert b1 == x[|a1| + 1..];
    assert b2 == x[|a2| + 1..];
  }

  /** Equal strings with a common head have equal tails. */
  lemma DropHead(head: string, x1: string, x2: string)
    requires head + x1 == head + x2
    ensures x1 == x2
  {
    assert x1 == (head + x1)[|head|..];
    assert x2 == (head + x2)[|head|..];
  }

  /** For non-negative offsets the range text is the heading, the start,
      a dash and the end. */
  lemma CharRangeOfNats(start: nat, end: nat)
    ensures CharRange(start, end) == "characters " + (NatToString(start) + "-" + NatToString(end))
  {
  }

  /** The range text names its range: for the non-negative offsets the
      chunk schema admits, different ranges read differently. */
  lemma CharRangeInjective(s1: nat, e1: nat, s2: nat, e2: nat)
    requires CharRange(s1, e1) == CharRange(s2, e2)
    ensures s1 == s2 && e1 == e2
  {
    CharRangeOfNats(s1, e1);
    CharRangeOfNats(s2, e2);
    DropHead("characters ", NatToString(s1) + "-" + NatToString(e1), NatToString(s2) + "-" + NatToString(e2));
    DashSplits(NatToString(s1), NatToString(e1), NatToString(s2), NatToString(e2));
    NatToStringInjective(s1, s2);
    NatToStringInjective(e1, e2);
  }

  /** `content[:200] + "..."` when the content is longer than 200
      characters, otherwise the content. */
  function Preview(content: string): (r: string)
    ensures |content| <= PreviewLength ==> r == content
    ensures |content| > PreviewLength ==> |r| == PreviewLength + 3 && r[..PreviewLength] == content[..PreviewLength]
    ensures |content| > PreviewLength ==> r[PreviewLength..] == "..."
  {
    if |content| > PreviewLength then content[..PreviewLength] + "..." else content
  }

  /** The source entry of a retrieved chunk. The score is carried as
      retrieved. */
  function SourceOf(h: Analysis.Hit): (s: Source)
    ensures s.chunkIndex == h.chunkIndex + 1
    ensures s.chunkId == h.chunkId && s.documentName == h.documentName && s.documentType == h.documentType
    ensures s.documentFilepath == h.documentFilepath && s.similarityScore == h.similarityScore
    ensures s.startCharIndex == h.startCharIndex && s.endCharIndex == h.endCharIndex
    ensures s.characterRange == CharRange(h.startCharIndex, h.endCharIndex)
    ensures s.contentPreview == Preview(h.content)
  {
    Source(h.documentName, h.documentType, h.documentFilepath, h.chunkId, h.chunkIndex + 1,
           h.startCharIndex, h.endCharIndex, CharRange(h.startCharIndex, h.endCharIndex),
           h.similarityScore, Preview(h.content))
  }

  /** `"Document: {name}\nContent: {content}\n"`. */
  function ContextPart(h: Analysis.Hit): string {
    "Document: " + h.documentName + "\nContent: " + h.content + "\n"
  }

  /** The audit message for a retrieved chunk whose source renders as `text`. */
  function MessageFor(chatId: string, h: Analysis.Hit, text: string): MessageCreate {
    MessageCreate(chatId, Some(h.chunkId), Assistant, text, Analyse, Completed)
  }

  function Sources(hits: seq<Analysis.Hit>): seq<Source> {
    seq(|hits|, k requires 0 <= k < |hits| => SourceOf(hits[k]))
  }

  function ContextParts(hits: seq<Analysis.Hit>): seq<string> {
    seq(|hits|, k requires 0 <= k < |hits| => ContextPart(hits[k]))
  }

  function Messages(chatId: string, hits: seq<Analysis.Hit>, render: Source -> string): seq<MessageCreate> {
    seq(|hits|, k requires 0 <= k < |hits| => MessageFor(chatId, hits[k], render(SourceOf(hits[k]))))
  }

  /** The per-chunk sequences grow by one entry per chunk. */
  lemma ContextPartsSnoc(hits: seq<Analysis.Hit>, i: nat)
    requires i < |hits|
    ensures ContextParts(hits[..i + 1]) == ContextParts(hits[..i]) + [ContextPart(hits[i])]
  {
  }

  lemma SourcesSnoc(hits: seq<Analysis.Hit>, i: nat)
    requires i < |hits|
    ensures Sources(hits[..i + 1]) == Sources(hits[..i]) + [SourceOf(hits[i])]
  {
  }

  lemma MessagesSnoc(chatId: string, hits: seq<Analysis.Hit>, render: Source -> string, i: nat)
    requires i < |hits|
    ensures Messages(chatId, hits[..i + 1], render)
      == Messages(chatId, hits[..i], render) + [MessageFor(chatId, hits[i], render(SourceOf(hits[i])))]
  {
  }

  /** The context the model answers from. */
  function Context(hits: seq<Analysis.Hit>): string {
    Join(ContextParts(hits), Separator)
  }

  /** `answer_question` after retrieval: the answer and the messages it
      creates, in order. No chunk: the fixed answer, no sources, no
      messages, no count. Otherwise one source and one message per chunk in
      retrieval order, the model's answer to the context, and the count. */
  function Respond(q: Question, hits: seq<Analysis.Hit>, render: Source -> string, complete: (string, string) -> string)
    : (r: (Answer, seq<MessageCreate>))
    ensures r.0.question == q.content
    ensures |hits| == 0 <==> r.0.totalSourcesFound.None?
    ensures |hits| > 0 ==> r.0.totalSourcesFound == Some(|hits|) && r.0.answer == complete(Context(hits), q.content)
    ensures |hits| == 0 ==> r.0.answer == NoAnswer
    ensures |r.0.sources| == |hits| && |r.1| == |hits|
    ensures forall k :: 0 <= k < |hits| ==>
      r.0.sources[k] == SourceOf(hits[k])
      && r.1[k].chunkId == Some(hits[k].chunkId) && r.1[k].chatId == q.chatId
      && r.1[k].content == render(r.0.sources[k])
      && r.1[k].role == Assistant && r.1[k].task == Analyse && r.1[k].status == Completed
  {
    if |hits| == 0 then (Answer(NoAnswer, [], q.content, None), [])
    else (Answer(complete(Context(hits), q.content), Sources(hits), q.content, Some(|hits|)), Messages(q.chatId, hits, render))
  }

  /** Each chunk's part occurs in the context the model sees, at
      position `i`. */
  lemma ContextHoldsChunk(hits: seq<Analysis.Hit>, k: nat) returns (i: nat)
    requires k < |hits|
    ensures OccursAt(Context(hits), ContextPart(hits[k]), i)
  {
    i := JoinHoldsPart(ContextParts(hits), Separator, k);
  }

  /** The message table, append-only as far as the builder is concerned. */
  class MessageLedger {
    var messages: seq<MessageCreate>

    constructor ()
      ensures messages == []
    {
      messages := [];
    }

    /** `create_message`. */
    method CreateMessage(m: MessageCreate)
      modifies this
      ensures messages == old(messages) + [m]
    {
      messages := messages + [m];
    }
  }

  class ReasoningProcessor {
    const analysing: Analysis.AnalysingProcessor
    const ledger: MessageLedger
    /** `str(source)`. */
    const render: Source -> string
    /** The prompt built from the context and the question, sent to the
        chat model; its reply. */
    const complete: (string, string) -> string

    constructor (a: Analysis.AnalysingProcessor, l: MessageLedger, r: Source -> string, c: (string, string) -> string)
      ensures analysing == a && ledger == l && render == r && complete == c
    {
      analysing := a;
      ledger := l;
      render := r;
      complete := c;
    }

    /** `answer_question`: a failed search raises out of it, before any
        message is written. */
    method AnswerQuestion(message: Question) returns (r: Result<Answer, Analysis.SearchError>)
      modifies ledger
      ensures var found := old(analysing.Searched(message.content, TopK));
        if found.Err? then r == Err(found.error) && ledger.messages == old(ledger.messages)
        else
          var (answer, created) := Respond(message, found.value, render, complete);
          r == Ok(answer) && ledger.messages == old(ledger.messages) + created
    {
      var found := analysing.SearchSimilarChunks(message.content, TopK);
      if found.Err? {
        return Err(found.error);
      }
      var answer := Compose(message, found.value);
      r := Ok(answer);
    }

    /** The part of `answer_question` after retrieval: the chunks'
        sources, messages and context, then the model's answer. */
    method Compose(message: Question, hits: seq<Analysis.Hit>) returns (answer: Answer)
      modifies ledger
      ensures answer == Respond(message, hits, render, complete).0
      ensures ledger.messages == old(ledger.messages) + Respond(message, hits, render, complete).1
    {
      var question := message.content;
      if |hits| == 0 {
        return Answer(NoAnswer, [], question, None);
      }
      var parts, sources := RecordSources(message.chatId, hits);
      var context := Join(parts, Separator);
      var reply := complete(context, question);
      answer := Answer(reply, sources, question, Some(|hits|));
    }

    /** The loop of `answer_question`: per chunk, in order, its source, its
        context part, and a message holding the rendered source. */
    method RecordSources(chatId: string, hits: seq<Analysis.Hit>) returns (parts: seq<string>, sources: seq<Source>)
      modifies ledger
      ensures parts == ContextParts(hits) && sources == Sources(hits)
      ensures ledger.messages == old(ledger.messages) + Messages(chatId, hits, render)
    {
      ghost var before := ledger.messages;
      parts, sources := [], [];
      var i := 0;
      while i < |hits|
        invariant 0 <= i <= |hits|
        invariant parts == ContextParts(hits[..i]) && sources == Sources(hits[..i])
        invariant ledger.messages == before + Messages(chatId, hits[..i], render)
      {
        var h := hits[i];
        ContextPartsSnoc(hits, i);
        SourcesSnoc(hits, i);
        MessagesSnoc(chatId, hits, render, i);
        parts := parts + [ContextPart(h)];
        var source := SourceOf(h);
        sources := sources + [source];
        ledger.CreateMessage(MessageFor(chatId, h, render(source)));
        i := i + 1;
      }
      assert hits[..i] == hits;
    }
  }
}
