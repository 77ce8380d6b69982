/**
 * The attachment pass over the selected message: every walked part that is an attachment
 * is collected, and the text extracted from it (by filename suffix) is appended to one
 * accumulator string.
 */
module Attachments {
  import opened Wrappers
  import opened Text
  import opened Mime

  datatype Attachment = Attachment(filename: string, payload: Option<Bytes>)

  /** The extraction routes, chosen by the lower-cased filename suffix. */
  datatype FileKind = Pdf | Docx | PlainText | Unsupported

  /**
   * The library calls the pass makes on an attachment's bytes.
   * pdfPages: the text of each page PyPDF2 yields, in page order, up to the first failure
   * (none when the reader cannot open the bytes).
   * docxParagraphs: the text of each paragraph python-docx yields; None when the document
   * cannot be written out or opened.
   * decode: `bytes.decode(errors="ignore")`.
   */
  datatype Readers = Readers(
    pdfPages: Bytes -> seq<string>,
    docxParagraphs: Bytes -> Option<seq<string>>,
    decode: Bytes -> string)

  /** Not multipart, has a Content-Disposition header, and a non-empty filename. */
  predicate IsAttachment(p: Part)
  {
    MainType(p.contentType) != "multipart" && p.disposition.Some? && p.filename.Some? && p.filename.value != ""
  }

  /** The `(filename, payload)` pair the pass records for an attachment part. */
  function AttachmentOf(p: Part): Attachment
    requires p.filename.Some?
  {
    Attachment(p.filename.value, Payload(p))
  }

  /** The attachments of `parts`, in order. */
  function Collected(parts: seq<Part>): seq<Attachment>
  {
    if parts == [] then []
    else if IsAttachment(parts[0]) then [AttachmentOf(parts[0])] + Collected(parts[1..])
    else Collected(parts[1..])
  }

  /** Exactly the attachment parts are collected: each one is recorded, and nothing else is. */
  lemma {:induction false} CollectedExactly(parts: seq<Part>)
    ensures |Collected(parts)| <= |parts|
    ensures forall i | 0 <= i < |parts| && IsAttachment(parts[i]) :: AttachmentOf(parts[i]) in Collected(parts)
    ensures forall a | a in Collected(parts) ::
      exists i | 0 <= i < |parts| :: IsAttachment(parts[i]) && a == AttachmentOf(parts[i])
  {
    if parts != [] {
      CollectedExactly(parts[1..]);
      assert forall i | 1 <= i < |parts| :: parts[i] == parts[1..][i - 1];
    }
  }

  /** Collection respects order: the attachments of a + b are those of a, then those of b. */
  lemma {:induction false} CollectedAppend(a: seq<Part>, b: seq<Part>)
    ensures Collected(a + b) == Collected(a) + Collected(b)
  {
    if a != [] {
      assert (a + b)[1..] == a[1..] + b;
      CollectedAppend(a[1..], b);
    } else {
      assert a + b == b;
    }
  }

  /** `if filename.lower().endswith(".pdf") ... elif ".docx" ... elif ".txt" ... else`. */
  function KindOf(filename: string): FileKind
  {
    var lower := Lower(filename);
    if EndsWith(lower, ".pdf") then Pdf
    else if EndsWith(lower, ".docx") then Docx
    else if EndsWith(lower, ".txt") then PlainText
    else Unsupported
  }

  /** The dispatch ignores letter case. */
  lemma KindOfIgnoresCase(filename: string)
    ensures KindOf(Lower(filename)) == KindOf(filename)
  {
    LowerIdempotent(filename);
  }

  /** The three suffixes exclude each other, so each route is taken exactly when its suffix matches. */
  lemma KindOfSuffix(filename: string)
    ensures KindOf(filename) == Pdf <==> EndsWith(Lower(filename), ".pdf")
    ensures KindOf(filename) == Docx <==> EndsWith(Lower(filename), ".docx")
    ensures KindOf(filename) == PlainText <==> EndsWith(Lower(filename), ".txt")
    ensures KindOf(filename) == Unsupported <==>
      !EndsWith(Lower(filename), ".pdf") && !EndsWith(Lower(filename), ".docx") && !EndsWith(Lower(filename), ".txt")
  {
    var s := Lower(filename);
    // the last character tells the suffixes apart: 'f', 'x', 't'
    if EndsWith(s, ".docx") || EndsWith(s, ".txt") {
      assert s[|s| - 1] != 'f';
      assert !EndsWith(s, ".pdf");
    }
    if EndsWith(s, ".txt") {
      assert s[|s| - 1] != 'x';
      assert !EndsWith(s, ".docx");
    }
  }

  /** Every non-empty page, each followed by a newline; empty pages add nothing. */
  function PdfText(pages: seq<string>): string
  {
    if pages == [] then ""
    else (if pages[0] != "" then pages[0] + "\n" else "") + PdfText(pages[1..])
  }

  /** The PDF text is empty exactly when every page is, and otherwise ends with a newline. */
  lemma {:induction false} PdfTextShape(pages: seq<string>)
    ensures PdfText(pages) == "" <==> forall i | 0 <= i < |pages| :: pages[i] == ""
    ensures PdfText(pages) == "" || PdfText(pages)[|PdfText(pages)| - 1] == '\n'
  {
    if pages != [] {
      PdfTextShape(pages[1..]);
      assert forall i | 1 <= i < |pages| :: pages[i] == pages[1..][i - 1];
    }
  }

  lemma {:induction false} PdfTextAppend(a: seq<string>, b: seq<string>)
    ensures PdfText(a + b) == PdfText(a) + PdfText(b)
  {
    if a != [] {
      assert (a + b)[1..] == a[1..] + b;
      PdfTextAppend(a[1..], b);
    } else {
      assert a + b == b;
    }
  }

  /** When reading stops after k pages, the text of those pages is kept: it begins the full text. */
  lemma PdfTextPartialIsPrefix(pages: seq<string>, k: nat)
    requires k <= |pages|
    ensures StartsWith(PdfText(pages), PdfText(pages[..k]))
  {
    assert pages == pages[..k] + pages[k..];
    PdfTextAppend(pages[..k], pages[k..]);
  }

  /** Every paragraph, empty ones included, each followed by a newline. */
  function DocxText(paragraphs: seq<string>): string
  {
    if paragraphs == [] then "" else paragraphs[0] + "\n" + DocxText(paragraphs[1..])
  }

  /** Each paragraph, even an empty one, adds at least its newline. */
  lemma {:induction false} DocxTextShape(paragraphs: seq<string>)
    ensures |DocxText(paragraphs)| >= |paragraphs|
    ensures DocxText(paragraphs) == "" <==> paragraphs == []
    ensures DocxText(paragraphs) == "" || DocxText(paragraphs)[|DocxText(paragraphs)| - 1] == '\n'
  {
    if paragraphs != [] {
      DocxTextShape(paragraphs[1..]);
    }
  }

  lemma {:induction false} DocxTextAppend(a: seq<string>, b: seq<string>)
    ensures DocxText(a + b) == DocxText(a) + DocxText(b)
  {
    if a != [] {
      assert (a + b)[1..] == a[1..] + b;
      DocxTextAppend(a[1..], b);
    } else {
      assert a + b == b;
    }
  }

  /**
   * The text one attachment adds. A message attachment (message/rfc822, say) has no bytes (its payload is a
   * list of parts, so it decodes to None), and every route then fails inside its `try` and
   * adds nothing.
   */
  function Extract(att: Attachment, rd: Readers): string
  {
    match att.payload
    case None => ""
    case Some(bytes) =>
      match KindOf(att.filename)
      case Pdf => PdfText(rd.pdfPages(bytes))
      case Docx => (match rd.docxParagraphs(bytes) case None => "" case Some(ps) => DocxText(ps))
      case PlainText => rd.decode(bytes) + "\n"
      case Unsupported => ""
  }

  /** An unsupported suffix or a missing payload adds nothing; a .txt attachment adds its decoded bytes and a newline. */
  lemma ExtractRoutes(att: Attachment, rd: Readers)
    ensures KindOf(att.filename) == Unsupported || att.payload.None? ==> Extract(att, rd) == ""
    ensures KindOf(att.filename) == PlainText && att.payload.Some? ==>
      Extract(att, rd) == rd.decode(att.payload.value) + "\n"
  {
  }

  /** Every attachment's contribution is empty or ends with a newline. */
  lemma ExtractShape(att: Attachment, rd: Readers)
    ensures Extract(att, rd) == "" || Extract(att, rd)[|Extract(att, rd)| - 1] == '\n'
  {
    match att.payload
    case None =>
    case Some(bytes) =>
      match KindOf(att.filename)
      case Pdf => PdfTextShape(rd.pdfPages(bytes));
      case Docx =>
        if rd.docxParagraphs(bytes).Some? {
          DocxTextShape(rd.docxParagraphs(bytes).value);
        }
      case PlainText =>
      case Unsupported =>
  }

  /** `attachments_text`: the texts of the attachments, concatenated in order. */
  function ExtractAll(atts: seq<Attachment>, rd: Readers): string
  {
    if atts == [] then "" else Extract(atts[0], rd) + ExtractAll(atts[1..], rd)
  }

  /** The accumulated text is empty or ends with a newline. */
  lemma {:induction false} ExtractAllShape(atts: seq<Attachment>, rd: Readers)
    ensures ExtractAll(atts, rd) == "" || ExtractAll(atts, rd)[|ExtractAll(atts, rd)| - 1] == '\n'
  {
    if atts != [] {
      ExtractShape(atts[0], rd);
      ExtractAllShape(atts[1..], rd);
    }
  }

  lemma {:induction false} ExtractAllAppend(a: seq<Attachment>, b: seq<Attachment>, rd: Readers)
    ensures ExtractAll(a + b, rd) == ExtractAll(a, rd) + ExtractAll(b, rd)
  {
    if a != [] {
      var ab := a + b;
      assert ab[0] == a[0];
      assert ab[1..] == a[1..] + b;
      assert ExtractAll(ab, rd) == Extract(a[0], rd) + ExtractAll(a[1..] + b, rd);
      ExtractAllAppend(a[1..], b, rd);
      assert ExtractAll(a, rd) == Extract(a[0], rd) + ExtractAll(a[1..], rd);
    } else {
      assert a + b == b;
    }
  }

  /** `for page in reader.pages: if text: attachments_text += text + "\n"` */
  method AppendPdfPages(text: string, pages: seq<string>) returns (text': string)
    ensures text' == text + PdfText(pages)
  {
    text' := text;
    for j := 0 to |pages|
      invariant text' == text + PdfText(pages[..j])
    {
      assert pages[..j + 1] == pages[..j] + [pages[j]];
      PdfTextAppend(pages[..j], [pages[j]]);
      if pages[j] != "" {
        text' := text' + pages[j] + "\n";
      }
    }
    assert pages[..|pages|] == pages;
  }

  /** `for p in doc.paragraphs: attachments_text += p.text + "\n"` */
  method AppendParagraphs(text: string, paragraphs: seq<string>) returns (text': string)
    ensures text' == text + DocxText(paragraphs)
  {
    text' := text;
    for j := 0 to |paragraphs|
      invariant text' == text + DocxText(paragraphs[..j])
    {
      assert paragraphs[..j + 1] == paragraphs[..j] + [paragraphs[j]];
      DocxTextAppend(paragraphs[..j], [paragraphs[j]]);
      text' := text' + paragraphs[j] + "\n";
    }
    assert paragraphs[..|paragraphs|] == paragraphs;
  }

  /** The suffix dispatch for one attachment, appending to the accumulated text. */
  method AppendExtracted(text: string, att: Attachment, rd: Readers) returns (text': string)
    ensures text' == text + Extract(att, rd)
  {
    text' := text;
    var kind := KindOf(att.filename);
    if att.payload.None? {
      // every route raises inside its try and is caught
    } else if kind == Pdf {
      text' := AppendPdfPages(text', rd.pdfPages(att.payload.value));
    } else if kind == Docx {
      var doc := rd.docxParagraphs(att.payload.value);
      if doc.Some? {
        text' := AppendParagraphs(text', doc.value);
      }
    } else if kind == PlainText {
      text' := text' + rd.decode(att.payload.value) + "\n";
    }
  }

  /**
   * The `for part in sel_msg.walk()` pass: skip multipart parts and parts without a
   * Content-Disposition header, record every part with a filename, and append what its
   * suffix route extracts to the accumulated text.
   */
  method CollectAttachments(msg: Part, rd: Readers) returns (attachments: seq<Attachment>, text: string)
    ensures attachments == Collected(Walk(msg))
    ensures text == ExtractAll(attachments, rd)
  {
    var parts := Walk(msg);
    attachments, text := [], "";
    for i := 0 to |parts|
      invariant attachments == Collected(parts[..i])
      invariant text == ExtractAll(attachments, rd)
    {
      var part := parts[i];
      assert parts[..i + 1] == parts[..i] + [part];
      CollectedAppend(parts[..i], [part]);
      assert Collected([part]) == if IsAttachment(part) then [AttachmentOf(part)] else [];
      if MainType(part.contentType) == "multipart" {
        continue;
      }
      if part.disposition.None? {
        continue;
      }
      var filename := part.filename;
      if filename.Some? && filename.value != "" {
        var att := Attachment(filename.value, Payload(part));
        ExtractAllAppend(attachments, [att], rd);
        assert ExtractAll([att], rd) == Extract(att, rd);
        attachments := attachments + [att];
        text := AppendExtracted(text, att, rd);
      }
    }
    assert parts[..|parts|] == parts;
  }
}
