/**
 * The selected message taken through the whole pipeline: body text, attachment pass,
 * then summary and contract.
 */
module Pipeline {
  import opened Wrappers
  import opened Text
  import opened Mime
  import opened Body
  import opened Attachments
  import opened Contract

  /** The steps that run, in order, for the selected message when the button is pressed. */
  method ProcessMessage(msg: Email, rd: Readers, summarizer: Summarizer)
    returns (bodyText: string, attachments: seq<Attachment>, attachmentsText: string, g: Generation)
    requires BodyPartsAreLeaves(Walk(msg.root))
    ensures bodyText == BodyText(msg.root, rd.decode)
    ensures attachments == Collected(Walk(msg.root))
    ensures attachmentsText == ExtractAll(attachments, rd)
    ensures g.NoContent? <==> IsBlank(Combined(bodyText, attachmentsText))
    ensures g.Refused? <==> (!IsBlank(Combined(bodyText, attachmentsText))
      && !Storable(SummaryOf(Combined(bodyText, attachmentsText), summarizer), bodyText, attachmentsText))
    ensures g.Generated? ==> fresh(g.doc)
    ensures g.Generated? ==>
      g.doc.blocks == Layout(SummaryOf(Combined(bodyText, attachmentsText), summarizer), bodyText, attachmentsText)
  {
    bodyText := BodyText(msg.root, rd.decode);
    attachments, attachmentsText := CollectAttachments(msg.root, rd);
    g := SummarizeAndGenerate(bodyText, attachmentsText, summarizer);
  }

  /**
   * The "no content" guard fires only for a body that is non-empty whitespace with blank
   * attachment text: when get_body finds nothing, the placeholder is summarised instead.
   */
  lemma NoContentNeedsBlankBody(msg: Part, decode: Bytes -> string, attachmentsText: string)
    requires BodyPartsAreLeaves(Walk(msg))
    requires IsBlank(Combined(BodyText(msg, decode), attachmentsText))
    ensures GetBody(msg, decode) != "" && IsBlank(GetBody(msg, decode)) && IsBlank(attachmentsText)
  {
    CombinedBlank(BodyText(msg, decode), attachmentsText);
    NoBodyTextNotBlank();
  }

  /** A message with a "Hello" body part and an attached a.txt holding "World". */
  function HelloWorldMessage(hello: Bytes, world: Bytes): Part
  {
    Part("multipart/mixed", None, None, Multi([
      Part("text/plain", None, None, Leaf(hello)),
      Part("text/plain", Some("attachment; filename=\"a.txt\""), Some("a.txt"), Leaf(world))]))
  }

  lemma HelloWorldWalk(hello: Bytes, world: Bytes)
    ensures var msg := HelloWorldMessage(hello, world);
      Walk(msg) == [msg, msg.body.parts[0], msg.body.parts[1]]
  {
    var msg := HelloWorldMessage(hello, world);
    var body, att := msg.body.parts[0], msg.body.parts[1];
    assert Walk(body) == [body];
    assert Walk(att) == [att];
    assert WalkAll([att]) == [att];
    assert WalkAll([body, att]) == [body, att] by {
      assert [body, att][1..] == [att];
    }
  }

  lemma HelloWorldBody(decode: Bytes -> string, hello: Bytes, world: Bytes)
    requires decode(hello) == "Hello"
    ensures BodyPartsAreLeaves(Walk(HelloWorldMessage(hello, world)))
    ensures BodyText(HelloWorldMessage(hello, world), decode) == "Hello"
  {
    var msg := HelloWorldMessage(hello, world);
    var body := msg.body.parts[0];
    HelloWorldWalk(hello, world);
    // "multipart/mixed" is not text/plain, so the root is not a body part
    assert msg.contentType[0] != "text/plain"[0];
    assert !Contains("None", "attachment");
    assert IsBodyPart(body) && !IsBodyPart(msg);
  }

  /** Only the attached a.txt is an attachment: the root is multipart, the body part has no disposition. */
  lemma HelloWorldAttachmentParts(hello: Bytes, world: Bytes)
    ensures var msg := HelloWorldMessage(hello, world);
      && !IsAttachment(msg) && !IsAttachment(msg.body.parts[0]) && IsAttachment(msg.body.parts[1])
  {
    HelloWorldRootIsMultipart(hello, world);
    HelloWorldAttachedIsText(hello, world);
  }

  lemma HelloWorldRootIsMultipart(hello: Bytes, world: Bytes)
    ensures MainType(HelloWorldMessage(hello, world).contentType) == "multipart"
  {
    assert HelloWorldMessage(hello, world).contentType == "multipart" + "/" + "mixed";
    MainTypeOf("multipart", "mixed");
  }

  lemma HelloWorldAttachedIsText(hello: Bytes, world: Bytes)
    ensures MainType(HelloWorldMessage(hello, world).body.parts[1].contentType) == "text"
  {
    assert HelloWorldMessage(hello, world).body.parts[1].contentType == "text" + "/" + "plain";
    MainTypeOf("text", "plain");
  }

  lemma HelloWorldKind()
    ensures KindOf("a.txt") == PlainText
  {
    LowerNoCapitals("a.txt");
    assert !EndsWith("a.txt", ".pdf") by { assert "a.txt"[1..][1] != ".pdf"[1]; }
    assert !EndsWith("a.txt", ".docx") by { assert "a.txt"[0] != ".docx"[0]; }
    assert EndsWith("a.txt", ".txt") by { assert "a.txt"[1..] == ".txt"; }
  }

  lemma HelloWorldCollected(hello: Bytes, world: Bytes)
    ensures Collected(Walk(HelloWorldMessage(hello, world))) == [Attachment("a.txt", Some(world))]
  {
    var msg := HelloWorldMessage(hello, world);
    var body, att := msg.body.parts[0], msg.body.parts[1];
    HelloWorldWalk(hello, world);
    HelloWorldAttachmentParts(hello, world);
    ThirdIsOnlyAttachment(msg, body, att);
  }

  lemma ThirdIsOnlyAttachment(p0: Part, p1: Part, p2: Part)
    requires !IsAttachment(p0) && !IsAttachment(p1) && IsAttachment(p2)
    ensures Collected([p0, p1, p2]) == [AttachmentOf(p2)]
  {
    assert [p0, p1, p2][1..] == [p1, p2];
    assert [p1, p2][1..] == [p2];
    assert [p2][1..] == [];
    assert Collected([p2]) == [AttachmentOf(p2)] + Collected([]);
    assert Collected([p1, p2]) == Collected([p2]);
    assert Collected([p0, p1, p2]) == Collected([p1, p2]);
  }

  lemma HelloWorldAttachments(rd: Readers, hello: Bytes, world: Bytes)
    requires rd.decode(world) == "World"
    ensures ExtractAll(Collected(Walk(HelloWorldMessage(hello, world))), rd) == "World\n"
  {
    HelloWorldCollected(hello, world);
    HelloWorldKind();
    var att := Attachment("a.txt", Some(world));
    ExtractRoutes(att, rd);
    assert ExtractAll([att], rd) == Extract(att, rd) + ExtractAll([], rd);
  }

  lemma HelloWorldLayout()
    ensures Combined("Hello", "World\n") == "Hello\n\nWorld\n"
    ensures var doc := Layout(SimpleSummary("Hello\n\nWorld\n"), "Hello", "World\n");
      SectionText(doc, BodyHeading) == Some("Hello")
      && SectionText(doc, AttachmentsHeading) == Some("World\n")
  {
    assert !IsBlank("World\n") by { assert !IsSpace("World\n"[0]); }
    LayoutSections(SimpleSummary("Hello\n\nWorld\n"), "Hello", "World\n");
  }

  /** The texts of the example can be stored, so python-docx writes the contract. */
  lemma HelloWorldStorable()
    ensures Storable(SimpleSummary("Hello\n\nWorld\n"), "Hello", "World\n")
  {
    assert SimpleSummary("Hello\n\nWorld\n") == "Hello\n\nWorld\n";
    assert XmlText("Hello") && XmlText("\n\n") && XmlText("World\n");
    XmlTextConcat("Hello", "\n\n");
    XmlTextConcat("Hello\n\n", "World\n");
  }

  /**
   * End to end: the attachment yields "World\n", the combined text is
   * "Hello\n\nWorld\n", every text can be stored, so the contract is written, and each string
   * lands in its own section of it.
   */
  lemma HelloWorld(rd: Readers, hello: Bytes, world: Bytes)
    requires rd.decode(hello) == "Hello" && rd.decode(world) == "World"
    ensures var msg := HelloWorldMessage(hello, world);
      && BodyPartsAreLeaves(Walk(msg))
      && BodyText(msg, rd.decode) == "Hello"
      && ExtractAll(Collected(Walk(msg)), rd) == "World\n"
      && Combined("Hello", "World\n") == "Hello\n\nWorld\n"
      && Storable(SimpleSummary("Hello\n\nWorld\n"), "Hello", "World\n")
      && var doc := Layout(SimpleSummary("Hello\n\nWorld\n"), "Hello", "World\n");
         SectionText(doc, BodyHeading) == Some("Hello")
         && SectionText(doc, AttachmentsHeading) == Some("World\n")
  {
    HelloWorldBody(rd.decode, hello, world);
    HelloWorldAttachments(rd, hello, world);
    HelloWorldLayout();
    HelloWorldStorable();
  }
}
