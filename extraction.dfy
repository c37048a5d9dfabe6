/** Text extraction by file extension. The PDF, DOCX and plain-text readers
    are inputs: each gives the page texts, the paragraph texts or the file
    contents, or nothing when it raises. */
module Extraction {
  import opened Wrappers
  import opened Text

  datatype FileType = Pdf | Docx | Txt

  /** The type tag stored with the document. */
  function Tag(t: FileType): (s: string)
    ensures 1 <= |s| <= 4
  {
    match t
    case Pdf => "pdf"
    case Docx => "docx"
    case Txt => "txt"
  }

  datatype Readers = Readers(
    pdfPages: string -> Option<seq<string>>,
    docxParagraphs: string -> Option<seq<string>>,
    readText: string -> Option<string>)

  datatype ExtractError = UnsupportedFormat(extension: string) | ReadFailed(path: string)

  /** The lower-cased extension decides the format; anything else is refused. */
  function Classify(path: string): (r: Result<FileType, ExtractError>)
    ensures r == Ok(Pdf) <==> Lower(Extension(path)) == ".pdf"
    ensures r == Ok(Docx) <==> Lower(Extension(path)) == ".docx"
    ensures r == Ok(Txt) <==> Lower(Extension(path)) == ".txt"
    ensures r.Err? ==> r.error == UnsupportedFormat(Lower(Extension(path)))
  {
    var ext := Lower(Extension(path));
    if ext == ".pdf" then Ok(Pdf)
    else if ext == ".docx" then Ok(Docx)
    else if ext == ".txt" then Ok(Txt)
    else Err(UnsupportedFormat(ext))
  }

  /** Each piece followed by a newline, in order. */
  function JoinLines(parts: seq<string>): (text: string)
  {
    if |parts| == 0 then "" else parts[0] + "\n" + JoinLines(parts[1..])
  }

  /** The accumulated text is the pieces joined by newlines, with one more
      newline at the end. */
  lemma {:induction false} JoinLinesIsJoin(parts: seq<string>)
    ensures JoinLines(parts) == Join(parts + [""], "\n")
  {
    if |parts| > 0 {
      assert (parts + [""])[1..] == parts[1..] + [""];
      JoinLinesIsJoin(parts[1..]);
    }
  }

  /** Pieces without newlines come back from the line split, followed by the
      empty piece after the final newline. */
  lemma SplitJoinLines(parts: seq<string>)
    requires forall k :: 0 <= k < |parts| ==> '\n' !in parts[k]
    ensures Split(JoinLines(parts), '\n') == parts + [""]
  {
    JoinLinesIsJoin(parts);
    SplitJoin(parts + [""], '\n');
  }

  /** What extraction produces for `path`, or why it raises. */
  function Extract(readers: Readers, path: string): (r: Result<(string, FileType), ExtractError>)
    ensures r.Ok? ==> Classify(path) == Ok(r.value.1)
    ensures Classify(path).Err? ==> r == Err(Classify(path).error)
  {
    match Classify(path)
    case Err(e) => Err(e)
    case Ok(Pdf) =>
      (match readers.pdfPages(path)
       case None => Err(ReadFailed(path))
       case Some(pages) => Ok((JoinLines(pages), Pdf)))
    case Ok(Docx) =>
      (match readers.docxParagraphs(path)
       case None => Err(ReadFailed(path))
       case Some(paras) => Ok((JoinLines(paras), Docx)))
    case Ok(Txt) =>
      (match readers.readText(path)
       case None => Err(ReadFailed(path))
       case Some(t) => Ok((t, Txt)))
  }

  /** An unsupported extension is refused before any reader runs: the
      readers make no difference to the outcome. */
  lemma UnsupportedBeforeReading(r1: Readers, r2: Readers, path: string)
    requires Classify(path).Err?
    ensures Extract(r1, path) == Extract(r2, path) == Err(UnsupportedFormat(Lower(Extension(path))))
  {
  }

  /** `text += piece + "\n"` over the pages or paragraphs. */
  method Accumulate(parts: seq<string>) returns (text: string)
    ensures text == JoinLines(parts)
  {
    text := "";
    var i := 0;
    while i < |parts|
      invariant 0 <= i <= |parts|
      invariant text + JoinLines(parts[i..]) == JoinLines(parts)
    {
      JoinLinesStep(parts, i, text);
      text := text + parts[i] + "\n";
      i := i + 1;
    }
    assert text + JoinLines(parts[i..]) == text + "";
  }

  lemma JoinLinesStep(parts: seq<string>, i: nat, done: string)
    requires i < |parts|
    ensures done + JoinLines(parts[i..]) == (done + parts[i] + "\n") + JoinLines(parts[i + 1..])
  {
    assert parts[i..][0] == parts[i] && parts[i..][1..] == parts[i + 1..];
    var rest := JoinLines(parts[i + 1..]);
    assert JoinLines(parts[i..]) == parts[i] + "\n" + rest;
    assert done + (parts[i] + "\n" + rest) == (done + parts[i] + "\n") + rest;
  }


  /** `_extract_text_from_file` with its three readers. */
  method ExtractTextFromFile(readers: Readers, path: string) returns (r: Result<(string, FileType), ExtractError>)
    ensures r == Extract(readers, path)
  {
    var kind := Classify(path);
    if kind.Err? {
      return Err(kind.error);
    }
    match kind.value {
      case Pdf =>
        var pages := readers.pdfPages(path);
        if pages.None? {
          return Err(ReadFailed(path));
        }
        var text := Accumulate(pages.value);
        r := Ok((text, Pdf));
      case Docx =>
        var paras := readers.docxParagraphs(path);
        if paras.None? {
          return Err(ReadFailed(path));
        }
        var text := Accumulate(paras.value);
        r := Ok((text, Docx));
      case Txt =>
        var t := readers.readText(path);
        if t.None? {
          return Err(ReadFailed(path));
        }
        r := Ok((t.value, Txt));
    }
  }
}
