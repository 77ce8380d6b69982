/**
 * `get_body`: the plain-text body of the selected message, and the placeholder the
 * caller puts in its place when there is none.
 */
module Body {
  import opened Wrappers
  import opened Text
  import opened Mime

  const NoBodyText := "(no body text found)"

  /** `str(part.get("Content-Disposition"))`: Python renders a missing header as "None". */
  function DispositionString(disposition: Option<string>): string
  {
    match disposition
    case None => "None"
    case Some(d) => d
  }

  /** A part get_body accepts: text/plain and not marked as an attachment. */
  predicate IsBodyPart(p: Part)
  {
    p.contentType == "text/plain" && !Contains(DispositionString(p.disposition), "attachment")
  }

  /**
   * What the MIME parser guarantees: only multipart and message parts hold sub-parts,
   * so every part get_body would accept is a leaf with bytes to decode.
   */
  predicate BodyPartsAreLeaves(parts: seq<Part>)
  {
    forall i | 0 <= i < |parts| :: IsBodyPart(parts[i]) ==> parts[i].body.Leaf?
  }

  /** The first body part among `parts`, decoded; "" when there is none. */
  function FirstBody(parts: seq<Part>, decode: Bytes -> string): (r: string)
    requires BodyPartsAreLeaves(parts)
    ensures (forall i | 0 <= i < |parts| :: !IsBodyPart(parts[i])) ==> r == ""
    ensures forall i | 0 <= i < |parts| && IsBodyPart(parts[i]) ::
      (forall j | 0 <= j < i :: !IsBodyPart(parts[j])) ==> r == decode(parts[i].body.payload)
  {
    if parts == [] then ""
    else if IsBodyPart(parts[0]) then decode(parts[0].body.payload)
    else FirstBody(parts[1..], decode)
  }

  /**
   * `get_body(message)`: for a multipart message, the decoded payload of the first walked
   * part that is text/plain and not an attachment ("" if none); otherwise the message's
   * own decoded payload. `decode` stands for `.decode(errors="ignore")`.
   */
  function GetBody(msg: Part, decode: Bytes -> string): (r: string)
    requires BodyPartsAreLeaves(Walk(msg))
    ensures msg.body.Leaf? ==> r == decode(msg.body.payload)
    ensures msg.body.Multi? && (forall i | 0 <= i < |Walk(msg)| :: !IsBodyPart(Walk(msg)[i])) ==> r == ""
    ensures msg.body.Multi? ==> forall i | 0 <= i < |Walk(msg)| && IsBodyPart(Walk(msg)[i]) ::
      (forall j | 0 <= j < i :: !IsBodyPart(Walk(msg)[j])) ==> r == decode(Walk(msg)[i].body.payload)
  {
    match msg.body
    case Multi(_) => FirstBody(Walk(msg), decode)
    case Leaf(payload) => decode(payload)
  }

  /** `get_body(sel_msg) or "(no body text found)"`: never empty. */
  function BodyText(msg: Part, decode: Bytes -> string): (r: string)
    requires BodyPartsAreLeaves(Walk(msg))
    ensures r != ""
    ensures GetBody(msg, decode) != "" ==> r == GetBody(msg, decode)
    ensures GetBody(msg, decode) == "" ==> r == NoBodyText
  {
    var body := GetBody(msg, decode);
    if body != "" then body else NoBodyText
  }

  /** The placeholder is not blank, so a message whose get_body is "" still has content. */
  lemma NoBodyTextNotBlank()
    ensures !IsBlank(NoBodyText)
  {
    assert !IsSpace(NoBodyText[0]);
  }
}
