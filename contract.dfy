/**
 * Summarising the combined text and laying out the generated contract document.
 */
module Contract {
  import opened Wrappers
  import opened Text

  /** `simple_summary`'s default `max_chars`. */
  const SummaryBudget: nat := 800
  const TruncationMarker := "..."

  /**
   * `simple_summary(text)`: text of at most 800 characters comes back unchanged; longer
   * text is cut to its first 800 characters and marked with "...".
   */
  function SimpleSummary(text: string): (r: string)
    ensures |text| <= SummaryBudget ==> r == text
    ensures |text| > SummaryBudget ==> |r| == SummaryBudget + |TruncationMarker|
    ensures |text| > SummaryBudget ==>
      r[..SummaryBudget] == text[..SummaryBudget] && r[SummaryBudget..] == TruncationMarker
  {
    if |text| > SummaryBudget then text[..SummaryBudget] + TruncationMarker else text
  }

  /** Summarising a simple summary again changes nothing. */
  lemma SimpleSummaryIdempotent(text: string)
    ensures SimpleSummary(SimpleSummary(text)) == SimpleSummary(text)
  {
  }

  /** `body_text + "\n\n" + attachments_text` */
  function Combined(bodyText: string, attachmentsText: string): string
  {
    bodyText + "\n\n" + attachmentsText
  }

  /** The separator is whitespace, so the combined text is blank exactly when both halves are. */
  lemma CombinedBlank(bodyText: string, attachmentsText: string)
    ensures IsBlank(Combined(bodyText, attachmentsText)) <==> IsBlank(bodyText) && IsBlank(attachmentsText)
  {
    BlankConcat(bodyText, "\n\n");
    BlankConcat(bodyText + "\n\n", attachmentsText);
    assert IsBlank("\n\n") by {
      assert IsSpace("\n\n"[0]) && IsSpace("\n\n"[1]);
    }
  }

  /**
   * The optional model: None when it is switched off; otherwise the call on a text, which
   * yields None when it raises.
   */
  type Summarizer = Option<string -> Option<string>>

  /** The summary: the model's when it is on and succeeds, the simple summary otherwise. */
  function SummaryOf(combined: string, summarizer: Summarizer): (r: string)
    ensures summarizer.Some? && summarizer.value(combined).Some? ==> r == summarizer.value(combined).value
    ensures summarizer.None? || summarizer.value(combined).None? ==> r == SimpleSummary(combined)
  {
    match summarizer
    case None => SimpleSummary(combined)
    case Some(model) =>
      match model(combined)
      case Some(s) => s
      case None => SimpleSummary(combined)
  }

  /** One element of the generated document, as python-docx adds it. */
  datatype Block = Heading(text: string, level: nat) | Paragraph(text: string)

  const Title := "Generated Contract"
  const Intro := "Based on the selected email and attachments."
  const SummaryHeading := "Summary"
  const BodyHeading := "Original Email Body"
  const AttachmentsHeading := "Attachments (extracted)"

  /** The blocks of the contract, in the order they are added. */
  function Layout(summary: string, bodyText: string, attachmentsText: string): seq<Block>
  {
    [Heading(Title, 0), Paragraph(Intro),
     Heading(SummaryHeading, 1), Paragraph(summary),
     Heading(BodyHeading, 1), Paragraph(bodyText)]
    + if IsBlank(attachmentsText) then []
      else [Heading(AttachmentsHeading, 1), Paragraph(attachmentsText)]
  }

  /** Reading a document back: the paragraph under the first level-1 heading with this text. */
  function SectionText(doc: seq<Block>, heading: string): Option<string>
  {
    if |doc| < 2 then None
    else if doc[0] == Heading(heading, 1) && doc[1].Paragraph? then Some(doc[1].text)
    else SectionText(doc[1..], heading)
  }

  /**
   * The contract always opens with the title and the intro line, always holds the summary
   * and the body under their headings, and holds the attachment text under its heading
   * exactly when that text is not blank.
   */
  lemma LayoutSections(summary: string, bodyText: string, attachmentsText: string)
    ensures var doc := Layout(summary, bodyText, attachmentsText);
      && |doc| == (if IsBlank(attachmentsText) then 6 else 8)
      && doc[0] == Heading(Title, 0) && doc[1] == Paragraph(Intro)
      && doc[2] == Heading(SummaryHeading, 1) && doc[4] == Heading(BodyHeading, 1)
      && SectionText(doc, SummaryHeading) == Some(summary)
      && SectionText(doc, BodyHeading) == Some(bodyText)
      && SectionText(doc, AttachmentsHeading) == (if IsBlank(attachmentsText) then None else Some(attachmentsText))
  {
    var doc := Layout(summary, bodyText, attachmentsText);
    assert SectionText(doc, SummaryHeading) == SectionText(doc[1..], SummaryHeading) == SectionText(doc[2..], SummaryHeading);
    assert SectionText(doc, BodyHeading) == SectionText(doc[1..], BodyHeading) == SectionText(doc[2..], BodyHeading)
      == SectionText(doc[3..], BodyHeading) == SectionText(doc[4..], BodyHeading);
    assert SectionText(doc, AttachmentsHeading) == SectionText(doc[1..], AttachmentsHeading)
      == SectionText(doc[2..], AttachmentsHeading) == SectionText(doc[3..], AttachmentsHeading)
      == SectionText(doc[4..], AttachmentsHeading) == SectionText(doc[5..], AttachmentsHeading)
      == SectionText(doc[6..], AttachmentsHeading);
  }

  /**
   * A character python-docx can store: the Char production of section 2.2 of XML 1.0, which
   * lxml enforces on every text it is given (no NUL, no other C0 control except tab, line
   * feed and carriage return, no U+FFFE or U+FFFF).
   */
  predicate XmlChar(c: char)
  {
    c == '\t' || c == '\n' || c == '\r'
    || (' ' <= c <= '\U{D7FF}') || ('\U{E000}' <= c <= '\U{FFFD}') || '\U{10000}' <= c
  }

  predicate XmlText(s: string)
  {
    forall i | 0 <= i < |s| :: XmlChar(s[i])
  }

  lemma XmlTextConcat(a: string, b: string)
    requires XmlText(a) && XmlText(b)
    ensures XmlText(a + b)
  {
    assert forall i | |a| <= i < |a + b| :: (a + b)[i] == b[i - |a|];
  }

  /** The fixed headings and the intro line are plain printable text. */
  lemma ConstantsAreXmlText()
    ensures XmlText(Title) && XmlText(Intro)
    ensures XmlText(SummaryHeading) && XmlText(BodyHeading) && XmlText(AttachmentsHeading)
  {
    HeadingsAreXmlText();
    IntroIsXmlText();
  }

  lemma HeadingsAreXmlText()
    ensures XmlText(Title) && XmlText(SummaryHeading) && XmlText(BodyHeading) && XmlText(AttachmentsHeading)
  {
    assert XmlText(Title) && XmlText(SummaryHeading);
  }

  lemma IntroIsXmlText()
    ensures XmlText(Intro)
  {
    assert XmlText("Based on the ");
    assert XmlText("selected email ");
    assert XmlText("and attachments.");
    XmlTextConcat("Based on the ", "selected email ");
    XmlTextConcat("Based on the selected email ", "and attachments.");
  }

  /**
   * The texts the contract stores as paragraphs can all be stored: the summary, the body,
   * and the attachment text when it gets its section.
   */
  predicate Storable(summary: string, bodyText: string, attachmentsText: string)
  {
    XmlText(summary) && XmlText(bodyText) && (IsBlank(attachmentsText) || XmlText(attachmentsText))
  }

  /** The three texts are storable exactly when every block of the laid-out contract is. */
  lemma StorableLayout(summary: string, bodyText: string, attachmentsText: string)
    ensures var doc := Layout(summary, bodyText, attachmentsText);
      Storable(summary, bodyText, attachmentsText) <==> forall i | 0 <= i < |doc| :: XmlText(doc[i].text)
  {
    var doc := Layout(summary, bodyText, attachmentsText);
    ConstantsAreXmlText();
    assert doc[3].text == summary && doc[5].text == bodyText;
    assert !IsBlank(attachmentsText) ==> doc[7].text == attachmentsText;
  }

  /** A NUL anywhere in the body keeps the contract from being written. */
  lemma NulInBodyRefused(summary: string, bodyText: string, attachmentsText: string, k: nat)
    requires k < |bodyText| && bodyText[k] == '\0'
    ensures !Storable(summary, bodyText, attachmentsText)
  {
    assert !XmlChar(bodyText[k]);
  }

  /** The python-docx `Document` being written: its blocks, in order. */
  class ContractDocument {
    var blocks: seq<Block>

    constructor ()
      ensures blocks == []
    {
      blocks := [];
    }

    /**
     * `add_heading(text, level=level)`, for the levels 0 to 9 that python-docx accepts: false
     * when python-docx refuses the text. The script then stops with the exception and the
     * document is dropped, so the blocks are left as they were.
     */
    method AddHeading(text: string, level: nat) returns (ok: bool)
      requires level <= 9
      modifies this
      ensures ok <==> XmlText(text)
      ensures ok ==> blocks == old(blocks) + [Heading(text, level)]
      ensures !ok ==> blocks == old(blocks)
    {
      ok := XmlText(text);
      if ok {
        blocks := blocks + [Heading(text, level)];
      }
    }

    /** `add_paragraph(text)`: false when python-docx refuses the text, as for headings. */
    method AddParagraph(text: string) returns (ok: bool)
      modifies this
      ensures ok <==> XmlText(text)
      ensures ok ==> blocks == old(blocks) + [Paragraph(text)]
      ensures !ok ==> blocks == old(blocks)
    {
      ok := XmlText(text);
      if ok {
        blocks := blocks + [Paragraph(text)];
      }
    }
  }

  /**
   * The successive add_heading/add_paragraph calls that build the contract; `ok` is false
   * when one of them raises.
   */
  method BuildContract(summary: string, bodyText: string, attachmentsText: string)
    returns (doc: ContractDocument, ok: bool)
    ensures fresh(doc)
    ensures ok <==> Storable(summary, bodyText, attachmentsText)
    ensures ok ==> doc.blocks == Layout(summary, bodyText, attachmentsText)
  {
    ConstantsAreXmlText();
    doc := new ContractDocument();
    ok := doc.AddHeading(Title, 0);
    ok := doc.AddParagraph(Intro);
    ok := doc.AddHeading(SummaryHeading, 1);
    ok := doc.AddParagraph(summary);
    if !ok {
      return;
    }
    ok := doc.AddHeading(BodyHeading, 1);
    ok := doc.AddParagraph(bodyText);
    if !ok {
      return;
    }
    if !IsBlank(attachmentsText) {
      ok := doc.AddHeading(AttachmentsHeading, 1);
      ok := doc.AddParagraph(attachmentsText);
    }
  }

  /**
   * What pressing "Summarize & Generate contract" produces: the empty-content error, an
   * exception from python-docx, or the contract.
   */
  datatype Generation = NoContent | Refused | Generated(doc: ContractDocument)

  /**
   * Combine the texts; report NoContent when the result is blank; otherwise summarise
   * (falling back to the simple summary) and build the contract, which fails when a text
   * it stores cannot be stored.
   */
  method SummarizeAndGenerate(bodyText: string, attachmentsText: string, summarizer: Summarizer)
    returns (g: Generation)
    ensures g.NoContent? <==> IsBlank(Combined(bodyText, attachmentsText))
    ensures g.Refused? <==> (!IsBlank(Combined(bodyText, attachmentsText))
      && !Storable(SummaryOf(Combined(bodyText, attachmentsText), summarizer), bodyText, attachmentsText))
    ensures g.Generated? ==> fresh(g.doc)
    ensures g.Generated? ==>
      g.doc.blocks == Layout(SummaryOf(Combined(bodyText, attachmentsText), summarizer), bodyText, attachmentsText)
  {
    var combined := Combined(bodyText, attachmentsText);
    if IsBlank(combined) {
      return NoContent;
    }
    var summary;
    if summarizer.Some? {
      var s := summarizer.value(combined);
      if s.Some? {
        summary := s.value;
      } else {
        summary := SimpleSummary(combined);
      }
    } else {
      summary := SimpleSummary(combined);
    }
    var doc, ok := BuildContract(summary, bodyText, attachmentsText);
    if ok {
      g := Generated(doc);
    } else {
      g := Refused;
    }
  }
}
