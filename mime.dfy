/**
 * The parsed e-mail message, as the MIME library hands it to the pipeline: a tree of
 * parts, each with its content type, its Content-Disposition header, its filename and
 * either a leaf payload or a list of sub-parts.
 */
module Mime {
  import opened Wrappers

  type Bytes = seq<bv8>

  /** A part whose payload is a list of parts is what Python calls `is_multipart()`. */
  datatype Body = Leaf(payload: Bytes) | Multi(parts: seq<Part>)

  /**
   * contentType is what `get_content_type()` returns; disposition is the raw
   * Content-Disposition header, None when the header is absent; filename is what
   * `get_filename()` returns.
   */
  datatype Part = Part(contentType: string, disposition: Option<string>, filename: Option<string>, body: Body)

  /** A fetched message: its decoded subject, its From header ("" when absent) and its part tree. */
  datatype Email = Email(subject: string, sender: string, root: Part)

  /** `part.walk()`: the part itself, then the walk of each sub-part in order (preorder). */
  function Walk(p: Part): (w: seq<Part>)
    ensures |w| >= 1 && w[0] == p
    decreases p
  {
    [p] + match p.body
          case Leaf(_) => []
          case Multi(parts) => WalkAll(parts)
  }

  function WalkAll(ps: seq<Part>): seq<Part>
    decreases ps
  {
    if ps == [] then [] else Walk(ps[0]) + WalkAll(ps[1..])
  }

  /** `get_content_maintype()`: the content type up to its first '/'. */
  function MainType(contentType: string): (r: string)
    ensures |r| <= |contentType| && r == contentType[..|r|]
    ensures '/' !in r
    ensures |r| == |contentType| || contentType[|r|] == '/'
  {
    if contentType == [] || contentType[0] == '/' then []
    else [contentType[0]] + MainType(contentType[1..])
  }

  /** The main type of "maintype/subtype" is the part before the slash. */
  lemma {:induction false} MainTypeOf(maintype: string, subtype: string)
    requires '/' !in maintype
    ensures MainType(maintype + "/" + subtype) == maintype
  {
    if maintype != [] {
      assert (maintype + "/" + subtype)[1..] == maintype[1..] + "/" + subtype;
      MainTypeOf(maintype[1..], subtype);
    }
  }

  /**
   * `get_payload(decode=True)`: the bytes of a leaf, None for a part whose payload is a list
   * of parts (a multipart part, or a message part such as message/rfc822).
   */
  function Payload(p: Part): Option<Bytes>
  {
    match p.body
    case Leaf(b) => Some(b)
    case Multi(_) => None
  }
}
