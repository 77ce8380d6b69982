# Gmail (IMAP) → Contract Generator: a Dafny model of its pipeline

The application is a Streamlit page. It logs in to a Gmail mailbox over IMAP, lists recent
messages and lets the user pick one. It then takes the message's plain-text body, extracts
text from its PDF, DOCX and TXT attachments, and summarises the combined text, either with a
HuggingFace model or by truncating to 800 characters. Finally it writes a small DOCX
"contract" made of a title, the summary, the body and the attachment text.

This project models the deterministic pipeline inside `app.py`. Every library call becomes
an abstract input:

- IMAP FETCH with MIME parsing becomes `fetch: MessageId -> Option<Email>`.
- A parsed message is a `Mime.Part` tree. Each part has a content type, an optional
  Content-Disposition, an optional filename, and either leaf bytes or sub-parts. `walk()`
  is the preorder flattening `Mime.Walk`.
- `bytes.decode(errors="ignore")` becomes `decode: Bytes -> string`.
- PyPDF2 becomes `pdfPages: Bytes -> seq<string>`: the page texts produced before any
  failure.
- python-docx becomes `docxParagraphs: Bytes -> Option<seq<string>>`: None when the
  document cannot be opened.
- The summarisation model becomes `Summarizer = Option<string -> Option<string>>`: None when
  switched off, and an inner None when the call raises.

Modules, one per stage:

- `Fetch` (fetch.dfy): newest-first id list, numbered dropdown keys, selecting a key.
- `Body` (body.dfy): `get_body` and its placeholder.
- `Attachments` (attachments.dfy): the walk over parts, the suffix dispatch and the
  accumulation of `attachments_text`.
- `Contract` (contract.dfy): `simple_summary`, the empty-content guard, the summary
  fallback, and the section layout built by successive `add_heading`/`add_paragraph` calls
  on a `ContractDocument` object.
- `Pipeline` (pipeline.dfy): the steps chained together, and a worked "Hello"/"World"
  example.
- `Text` (text.dfy), `Mime` (mime.dfy) and `Wrappers` (wrappers.dfy) hold the shared
  definitions.

The loops of the source are methods with loop invariants, proved against recursive
specification functions:

- `ListMessages`: the enumerate loop.
- `CollectAttachments`: the walk loop.
- `AppendPdfPages` and `AppendParagraphs`: the page and paragraph loops.

The lemmas beside them state what the source promises.

The code always adds the "Original Email Body" section (app.py:174-175). Since `body_text`
is never empty (app.py:98), that section always has text.

Every `add_heading` and `add_paragraph` call can raise in python-docx. The underlying XML
library refuses text that holds a NUL or another character outside the Char production of
section 2.2 of XML 1.0. There is no `try` around app.py:169-178, so a non-blank combined
text yields either the contract or that exception. `Contract.Generation` has a `Refused`
outcome for the exception. A `.txt` attachment holding a 0x00 byte is enough to reach it,
because `decode(errors="ignore")` keeps the NUL character.

A consequence that the model proves (`Pipeline.NoContentNeedsBlankBody`): the "No content to
summarize" error can only appear when `get_body` returns a non-empty, whitespace-only
string and the attachment text is blank. A message with no body part at all gets the
placeholder "(no body text found)". The placeholder is not blank, so the empty-content
error does not fire for that message.

## Model

| member | source | states |
|---|---|---|
| `Fetch.Reversed` | app.py:54 | definition of `ids[::-1]`: the last element first, then the reversal of the rest |
| `Fetch.Take` | app.py:55 | definition of `ids[:max_fetch]`: the first max_fetch ids, or all of them when there are fewer |
| `Fetch.ReversedAt` | app.py:54 | `ids[::-1]` keeps the length, and its k-th element is the (n-1-k)-th original |
| `Fetch.NewestFirst` | app.py:53-55 | the kept ids number min(n, max_fetch), and the k-th kept id is the (n-1-k)-th search result, so the newest comes first |
| `Fetch.Key` | app.py:68 | definition of `f"{i+1}: {subj} — {from_}"`: the decimal position from 1, ": ", the subject, " — " and the sender |
| `Fetch.DecimalString` | app.py:68 | `str(i+1)` is a non-empty string of decimal digits with no leading zero |
| `Fetch.ParseDecimalString` | app.py:68 | reading the decimal string of n back gives n, so distinct numbers print differently |
| `Fetch.DecimalStringInjective` | app.py:68 | equal decimal strings come from equal numbers |
| `Fetch.DigitsEndAtColon` | app.py:68 | in a key, the first ':' comes right after the number's digits |
| `Fetch.KeyInjective` | app.py:68 | keys at different positions differ, whatever the subjects and senders |
| `Fetch.ListMessages` | app.py:53-73 | entries are numbered consecutively from 1, in newest-first order. Each entry carries its id and its fetched message. A fetch that raises ends the list and keeps the entries already appended |
| `Fetch.Keys` | app.py:77 | the key list has one key per entry, at the same position |
| `Fetch.IndexOf` | app.py:79 | `keys.index(k)` is the first position holding k |
| `Fetch.Select` | app.py:79-80 | the selected entry is in the list and carries the chosen key |
| `Fetch.SelectAt` | app.py:77-80 | choosing the key shown at position i returns exactly the (key, id, msg) entry at position i |
| `Mime.Walk` | app.py:90 | `walk()` yields the part itself first |
| `Mime.MainType` | app.py:105 | `get_content_maintype()` is the prefix of the content type before the first '/': a prefix without '/', followed by '/' or the end of the content type |
| `Mime.Payload` | app.py:111 | definition of `get_payload(decode=True)`: the bytes of a leaf part, None for a part whose payload is a list of parts (multipart or message/*) |
| `Mime.MainTypeOf` | app.py:105 | the main type of "maintype/subtype" is maintype |
| `Body.DispositionString` | app.py:92 | definition of `str(part.get("Content-Disposition"))`: the header text, or "None" when it is missing |
| `Text.Contains` | app.py:93 | definition of `t in s` for strings: t occurs as a contiguous substring of s, tried at every start position |
| `Body.IsBodyPart` | app.py:91-93 | definition of the get_body test: content type exactly text/plain, and "attachment" not in the disposition string |
| `Body.FirstBody` | app.py:90-94 | returns the decoded payload of the first part that is text/plain and whose disposition does not contain "attachment"; returns "" when no part qualifies |
| `Body.GetBody` | app.py:88-97 | for a multipart message, returns the first qualifying walked part's decoded payload, or "" when none qualifies; otherwise returns the message's own decoded payload |
| `Body.BodyText` | app.py:98 | `body_text` is never empty. It is get_body's result when that is non-empty, and otherwise the "(no body text found)" placeholder |
| `Body.NoBodyTextNotBlank` | app.py:98 | the placeholder is not blank |
| `Attachments.IsAttachment` | app.py:105-110 | definition of the filter: main type not multipart, a Content-Disposition header present, and a non-empty filename |
| `Attachments.Collected` | app.py:104-113 | definition of the `attachments` list: the `(filename, payload)` pair of every walked part passing the filter, in walk order |
| `Attachments.CollectedExactly` | app.py:104-113 | every non-multipart part with a Content-Disposition header and a non-empty filename is collected, and nothing else is |
| `Attachments.CollectedAppend` | app.py:104-113 | collection keeps walk order: the attachments of a + b are those of a followed by those of b |
| `Text.Lower` | app.py:117 | definition of `filename.lower()`, on ASCII letters (see Left out) |
| `Text.EndsWith` | app.py:117 | definition of `s.endswith(suffix)`: the suffix is no longer than s and equals its last characters |
| `Attachments.KindOf` | app.py:117-143 | definition of the dispatch: the lower-cased name ending in .pdf, else .docx, else .txt, else unsupported, tested in that order |
| `Attachments.KindOfIgnoresCase` | app.py:117-143 | the suffix dispatch ignores letter case |
| `Attachments.KindOfSuffix` | app.py:117-143 | each route (.pdf, .docx, .txt) is taken exactly when the lower-cased filename ends with its suffix; any other filename is unsupported |
| `Attachments.PdfText` | app.py:120-123 | definition of the page text: every non-empty page followed by a newline, in page order; empty pages add nothing |
| `Attachments.PdfTextShape` | app.py:120-123 | the PDF text is empty iff every page text is empty, and otherwise ends with a newline |
| `Attachments.PdfTextAppend` | app.py:120-123 | the text of pages a + b is the text of a followed by the text of b |
| `Attachments.PdfTextPartialIsPrefix` | app.py:118-125 | when reading stops after k pages, the text already appended is kept as a prefix of the full text |
| `Attachments.DocxText` | app.py:132-133 | definition of the paragraph text: every paragraph followed by a newline, in order, empty ones included |
| `Attachments.DocxTextShape` | app.py:132-133 | every paragraph, empty ones included, adds at least its newline; the text is empty iff there are no paragraphs |
| `Attachments.DocxTextAppend` | app.py:132-133 | the text of paragraphs a + b is the text of a followed by the text of b |
| `Attachments.Extract` | app.py:117-143 | definition of one attachment's contribution: no bytes adds nothing; otherwise the PDF text, the DOCX text (nothing when the document cannot be opened), the decoded text plus a newline, or nothing, by route |
| `Attachments.ExtractAll` | app.py:102-143 | definition of `attachments_text`: the contributions of the collected attachments concatenated in order, starting from "" |
| `Attachments.ExtractRoutes` | app.py:117-143 | an unsupported suffix, or an attachment without bytes, adds nothing. A .txt attachment adds `decode(payload) + "\n"` |
| `Attachments.ExtractShape` | app.py:117-143 | every attachment's contribution is empty or ends with a newline |
| `Attachments.ExtractAllShape` | app.py:102-143 | the accumulated text is empty or ends with a newline |
| `Attachments.ExtractAllAppend` | app.py:102-143 | the attachment text of a + b is the text of a followed by the text of b |
| `Attachments.AppendPdfPages` | app.py:120-123 | the page loop appends exactly the PDF text of the pages |
| `Attachments.AppendParagraphs` | app.py:132-133 | the paragraph loop appends exactly the DOCX text of the paragraphs |
| `Attachments.AppendExtracted` | app.py:117-143 | the dispatch for one attachment appends exactly that attachment's extracted text |
| `Attachments.CollectAttachments` | app.py:102-143 | the walk loop returns exactly the collected attachments in walk order, and `attachments_text` is the concatenation of their extracted texts |
| `Text.IsBlank` | app.py:154 | definition of `not s.strip()`: every character is in Python's `isspace` set |
| `Text.BlankConcat` | app.py:154 | `(a + b).strip()` is empty iff both `a.strip()` and `b.strip()` are |
| `Text.LowerIdempotent` | app.py:117 | lower-casing twice is lower-casing once |
| `Text.LowerNoCapitals` | app.py:117 | a string without capital letters is its own lower-case form |
| `Contract.SimpleSummary` | app.py:149-150 | text of at most 800 characters is returned unchanged. Longer text becomes its first 800 characters followed by "...", 803 characters in all |
| `Contract.SimpleSummaryIdempotent` | app.py:149-150 | summarising a simple summary again changes nothing |
| `Contract.Combined` | app.py:153 | definition of `body_text + "\n\n" + attachments_text` |
| `Contract.CombinedBlank` | app.py:153-154 | `body_text + "\n\n" + attachments_text` is blank iff both parts are blank |
| `Contract.SummaryOf` | app.py:157-166 | the model's summary when the model is on and succeeds; `simple_summary(combined)` when it is off or raises |
| `Contract.Layout` | app.py:169-178 | definition of the block sequence: title (level 0), intro, Summary heading and summary, body heading and body, then the attachments heading and text only when that text is not blank |
| `Contract.LayoutSections` | app.py:169-178 | the contract opens with the title and the intro line, and has 6 blocks, or 8 with attachments. Summary and body always sit under their headings. The attachment text sits under its heading iff it is not blank after strip |
| `Contract.ContractDocument.constructor` | app.py:169 | a new document has no blocks |
| `Contract.ContractDocument.AddHeading` | app.py:170 | for levels 0 to 9, succeeds iff every character of the text is an XML 1.0 Char. On success it appends one heading block and changes nothing else; on refusal the blocks stay as they were |
| `Contract.ContractDocument.AddParagraph` | app.py:171 | succeeds iff every character of the text is an XML 1.0 Char. On success it appends one paragraph block and changes nothing else; on refusal the blocks stay as they were |
| `Contract.BuildContract` | app.py:169-178 | the add_heading/add_paragraph calls succeed iff the summary, the body and (when it gets a section) the attachment text are storable; when they do, they produce exactly the layout's blocks, in order |
| `Contract.XmlChar` | app.py:171 | definition of a character python-docx can store: the Char production of section 2.2 of XML 1.0 (tab, line feed, carriage return, U+0020-U+D7FF, U+E000-U+FFFD, U+10000 and above) |
| `Contract.XmlText` | app.py:171 | definition of a text python-docx can store: every character is an XML 1.0 Char |
| `Contract.Storable` | app.py:170-178 | definition of the condition under which no add call raises: the summary, the body and, when it is not blank, the attachment text are XML 1.0 text |
| `Contract.ConstantsAreXmlText` | app.py:170-177 | the title, intro line and headings can always be stored |
| `Contract.StorableLayout` | app.py:169-178 | the three texts are storable iff every block of the laid-out contract is |
| `Contract.NulInBodyRefused` | app.py:175 | a NUL anywhere in the body keeps the contract from being written |
| `Contract.SummarizeAndGenerate` | app.py:152-178 | the empty-content error happens iff the combined text is blank. python-docx refuses iff the text is non-blank and the summary, the body or the kept attachment text is not storable. Otherwise a fresh contract holds the layout with the (fallback) summary |
| `Pipeline.ProcessMessage` | app.py:88-178 | body text, collected attachments and attachment text are the model's functions of the selected message. The outcome is the empty-content error, python-docx's refusal or the contract, under the same conditions as `SummarizeAndGenerate` |
| `Pipeline.NoContentNeedsBlankBody` | app.py:98-155 | the empty-content error requires get_body to return a non-empty whitespace-only string and a blank attachment text |
| `Pipeline.HelloWorldStorable` | app.py:169-178 | the example's summary, body and attachment text pass the XML Char check, so the contract is written, not refused |
| `Pipeline.HelloWorld` | app.py:88-178 | a message with body "Hello" and an attached a.txt holding "World" gives the body "Hello", the attachment text "World\n" and the combined text "Hello\n\nWorld\n". Every text can be stored, so the contract is written. Both strings appear in their own sections of the contract |

## Left out

- Streamlit widgets, forms, the sidebar checkbox and every `st.*` message (info, warning,
  success, error), because they are user interface. Warnings on extraction failure are
  not modelled. Only their effect, that nothing is appended, is.
- The IMAP connection (TLS connect, login, SELECT of "INBOX" or the default mailbox, SEARCH,
  FETCH) and its exception handlers, because they are network I/O. The model starts from
  the search result's id list. Fetching and parsing one message is the `fetch`
  parameter, and an exception there is its None.
- Fetch.ListMessages: the fetch limit is any natural number. The form restricts it to
  1..50, and Python slicing with such a limit agrees with `Take`.
- RFC 5322/MIME parsing and RFC 2047 `decode_header`, because they are foreign library
  calls. `Email.subject` is the already-decoded first chunk of the Subject header, and
  `Email.sender` is the From header or "". `Part.contentType` is what `get_content_type()`
  returns (lower-cased, defaulted), and `Part.filename` is what `get_filename()` returns.
- Body.GetBody: requires that every part get_body would accept is a leaf. The MIME parser
  gives sub-parts only to multipart and message parts. For a text/plain part with sub-parts,
  the source would raise an uncaught AttributeError.
- The Date header read into `preview`, which is never used.
- `bytes.decode(errors="ignore")`, PyPDF2 page extraction and python-docx paragraph
  reading, because they are foreign libraries. They are the `Readers` parameters.
  `pdfPages` returns the texts of the pages read before a failure. Whether a failure
  happened changes only the warning, not the text.
- Text.Lower: lower-cases ASCII letters only. Python's `str.lower()` maps only two
  non-ASCII characters to ASCII output (U+0130 and U+212A). Neither can produce a
  ".pdf", ".docx" or ".txt" ending, so the suffix dispatch is the same.
- The temporary file `/tmp/_temp.docx` (written, read, and left behind on failure), and
  saving and re-reading `generated_contract.docx`, because they are filesystem I/O. A
  failure of `os.remove` after the paragraphs were appended keeps the text. The model
  produces the same text in that case.
- The `attachments` list stores the payload as `Option<Bytes>`. A message/* attachment
  (a forwarded message/rfc822 part with a filename, say) passes the multipart filter, but
  its payload is a list of parts, so `get_payload(decode=True)` gives None. Its extraction then fails inside the `try`
  (`BytesIO(None)` is empty for PyPDF2, `write(None)` raises for DOCX, `None.decode`
  raises for TXT), and it adds nothing.
- The HuggingFace pipeline and its length bounds (min 40, max 150 tokens), because it is a
  heavy external model. It is the `Summarizer` parameter.
- The base64 data-URI download link, because it is RFC 4648 section 4 encoding inside HTML
  output.
- Python strings can hold lone surrogates; Dafny `char` cannot. Slicing `text[:800]`
  otherwise counts code points in both.
- Streamlit reruns: `messages_list` is refilled only on the run where the Connect form is
  submitted (app.py:39-40), and nothing is kept in `st.session_state`. As written, the
  rerun caused by picking another key or pressing "Summarize & Generate contract" sees
  `connect` false and skips app.py:76-190. The model treats the selection and generation
  steps as if they ran on the same list. Rerun semantics are outside the model.
- Contract.ContractDocument.AddParagraph: on refusal python-docx has already appended an
  empty (or partly filled) paragraph. The model leaves the blocks as they were, because the
  script stops at the exception and that document is never saved. The same holds for
  `AddHeading`.
- Contract.XmlChar: the check is the Char production of section 2.2 of XML 1.0, which is
  what the XML library behind python-docx enforces on Unicode scalar values. Tabs and line
  breaks become separate run elements in python-docx. Both are allowed characters, so the
  outcome is the same.
