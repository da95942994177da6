# IBW virtual advisor: text processing and data shaping, in Dafny

The IBW virtual advisor answers questions about the "Internationale
Betriebswirtschaft" degree programme of Hochschule Aalen. It has a chat
front end, a vector store of programme content, and scripts that prepare
that content. This project models the deterministic parts of the
repository and proves properties about them:

- **Chat transcript parsing** (`chat_messages.dfy`). The chat view cuts a
  transcript into lines. Blank lines are dropped. "You:" lines become user
  messages and "Avatar:" lines become avatar messages. Every other line is
  discarded.
- **Mock vector search** (`mock_chroma.dfy`). The stand-in `ChromaService`
  used by the test suite has two parts:
  - a query classifier: an error for a non-string or blank query, otherwise
    one canned result chosen by keyword priority;
  - the lazily created singleton.
- **Metadata sanitising and batch preparation, TypeScript loader**
  (`load_mock_content.dfy`). `sanitizeMetadata` turns each metadata value
  into a string, number or boolean. The documents, their metadata and fresh
  ids are lined up index by index.
- **Ingestion, Python script** (`ingest_data.dfy`). It covers
  `prepare_metadata`, the content-derived document id, the check on the
  shape of the input, and the per-document loop that reports a failing
  document and moves on to the next.
- **Content transformation** (`clean_markdown.dfy`, `html_text.dfy`,
  `transform_ibw.dfy`). It covers:
  - `clean_markdown`;
  - the whitespace normalisation of text extracted from HTML;
  - `transform_ibw_data`, which routes cleaned items into five sections
    and assembles one document per non-empty section.

Shared definitions:
- `results.dfy`: `Option` and `Result`.
- `json.dfy`: JSON values as `json.load` and `JSON.parse` produce them.
- `text.dfy`: the two languages' whitespace classes, `trim` and `strip`,
  substring search, `split` and `join`, ASCII lower-casing and decimal
  rendering.

Calls into code this model cannot see are parameters of the functions that
use them:
- `hashlib.md5(...).hexdigest()`;
- `uuidv4`;
- the embedding service;
- `JSON.stringify`;
- Python's `repr` of a container.

The file reads and writes at the start and end of each script are left
out. The model starts from the values the JSON parser returned and ends
with the value handed to the writer.

## Model

| member | source | states |
|---|---|---|
| ChatMessages.FilterMapAppend | src/components/ChatMessages.tsx:9-20 | lines are handled one by one: the messages of two runs of lines come out concatenated, so message order is line order |
| ChatMessages.FilterMapOne | src/components/ChatMessages.tsx:12-20 | a single line contributes exactly the message the `map` step made of it, or nothing when that was `null` |
| ChatMessages.FilterMapBound | src/components/ChatMessages.tsx:12-20 | every message is the image of some line, and there are never more messages than lines |
| ChatMessages.MessagesBound | src/components/ChatMessages.tsx:9-20 | a transcript yields at most one message per '\n'-separated line (number of '\n' plus one) |
| ChatMessages.BlankLineDropped | src/components/ChatMessages.tsx:11 | an empty or whitespace-only line yields no message |
| ChatMessages.UserLine | src/components/ChatMessages.tsx:13-14 | a line starting with "You:" yields a user message whose text is the rest of the line, trimmed |
| ChatMessages.AvatarLine | src/components/ChatMessages.tsx:15-16 | a line starting with "Avatar:" yields an avatar message whose text is the rest of the line, trimmed |
| ChatMessages.OtherLineDropped | src/components/ChatMessages.tsx:13-18 | a line with neither prefix yields no message |
| ChatMessages.IndentedUserLineDropped | src/components/ChatMessages.tsx:13 | " You:..." yields no message at all, because the prefix test sees the untrimmed line |
| ChatMessages.BareUserLine | src/components/ChatMessages.tsx:14-20 | a bare "You:" yields one user message with empty text, which survives `filter(Boolean)` |
| MockChroma.ChromaService.Query | src/__mocks__/chromaClient.ts:12-74 | a non-string query gives "Invalid query type"; a blank one gives "Query text cannot be empty"; these are the only errors; every other answer holds exactly one result with title, section and source |
| MockChroma.ChromaService.constructor | src/__mocks__/chromaClient.ts:3 | the service records the working directory at construction |
| MockChroma.InstanceSlot.constructor | src/__mocks__/chromaClient.ts:2 | the static instance slot starts out unset |
| MockChroma.InstanceSlot.GetInstance | src/__mocks__/chromaClient.ts:5-10 | the first call creates a fresh service and stores it; every later call returns the stored object |
| MockChroma.GetInstanceTwice | src/__mocks__/chromaClient.ts:5-10 | two calls of `getInstance` return the same object, whatever the working directory at the second call |
| MockChroma.BusinessMathematicsAnywhere | src/__mocks__/chromaClient.ts:24-35 | "business mathematics" in any ASCII letter case, anywhere in a query of any length and whatever else it mentions, selects the Business Mathematics result |
| MockChroma.StudyAbroadBranch | src/__mocks__/chromaClient.ts:37-48 | without the first keyword, "abroad" or "international" in any case selects the Study Abroad result |
| MockChroma.StudyAbroadMentioned | src/__mocks__/chromaClient.ts:40 | the study-abroad document mentions "Study Abroad" |
| MockChroma.BachelorThesisBranch | src/__mocks__/chromaClient.ts:50-61 | without the earlier keywords, "bachelor thesis" selects the thesis result, which mentions ECTS |
| MockChroma.ThesisMentionsEcts | src/__mocks__/chromaClient.ts:53 | the thesis document mentions "ECTS" |
| MockChroma.DefaultBranch | src/__mocks__/chromaClient.ts:63-73 | any other non-blank query gets the result titled "Program Overview" |
| MockChroma.EmptyQueryRejected | src/__mocks__/chromaClient.ts:19-21 | the empty string is answered with the empty-query error |
| LoadMockContent.SanitizeMetadata | scripts/load_mock_content.ts:25-39 | the loop keeps exactly the input's keys except "__proto__", whose assignment the prototype setter ignores, and each value follows the if-chain: an array is joined with ", ", another non-null object is stringified, a string, number or boolean is kept, and anything else becomes `String(value)` |
| LoadMockContent.SanitizedIdempotent | scripts/load_mock_content.ts:25-39 | sanitising a sanitised record, read back as JSON, gives the same record |
| LoadMockContent.ArrayNotStringified | scripts/load_mock_content.ts:28-31 | the array test comes first, so an array is joined and never reaches `JSON.stringify` |
| LoadMockContent.StringArrayJoined | scripts/load_mock_content.ts:28-29 | an array of strings becomes its elements separated by ", ", and the empty array becomes "" |
| LoadMockContent.PrepareBatch | scripts/load_mock_content.ts:50-52 | documents, metadatas and ids have the length of the input and, at every index, come from the document at that index |
| LoadMockContent.BatchIdsDistinct | scripts/load_mock_content.ts:52 | when `uuidv4` never repeats itself, the ids of a batch are pairwise distinct |
| IngestData.PrepareMetadata | scripts/ingest_data.py:23-31 | the loop keeps exactly the input's keys; a list becomes `', '.join` of the `str` of its elements and any other value becomes its `str` |
| IngestData.PreparedIdempotent | scripts/ingest_data.py:23-31 | preparing a prepared record, read back, gives the same record |
| IngestData.StringListJoined | scripts/ingest_data.py:27-28 | a list of strings becomes its elements separated by ", ", in order, and the empty list becomes "" |
| IngestData.PythonScalars | scripts/ingest_data.py:29-30 | null, true and false are written "None", "True" and "False", also inside a list |
| IngestData.ProcessOne | scripts/ingest_data.py:77-99 | the steps of the `try` block store a document exactly when the document is a dict with a dict "metadata" and a string "markdown" and the embedding call succeeds; the id is the digest of the markdown |
| IngestData.ProcessFromAppend | scripts/ingest_data.py:76-105 | processing runs document by document: two consecutive runs give their added documents and failed positions concatenated |
| IngestData.ProcessFromAccounts | scripts/ingest_data.py:76-105 | every document is either added or reported as failed; failed positions are increasing and lie within the run |
| IngestData.AddedFromItems | scripts/ingest_data.py:94-99 | every added document is the result of processing one of the input documents |
| IngestData.FailedExactly | scripts/ingest_data.py:103-105 | position `first + i` is reported as failed exactly when processing document `i` fails |
| IngestData.AddedIgnoresPositions | scripts/ingest_data.py:76 | the documents added do not depend on where the position count starts |
| IngestData.SkipOnError | scripts/ingest_data.py:76-105 | a failing document is reported and skipped, and processing carries on: the result is the run before it, its position, then the run after it |
| IngestData.StoredIdIsDigest | scripts/ingest_data.py:19-21 | every stored document's id is the digest of its own text |
| IngestData.SameTextSameId | scripts/ingest_data.py:76-99 | two stored documents with the same text carry the same id, even when different runs stored them |
| IngestData.StringsAllFail | scripts/ingest_data.py:76-78 | when every item is a string, as when iterating a string or a dict, every position fails and nothing is added |
| IngestData.Iterate | scripts/ingest_data.py:76 | `for doc in documents` visits a list's elements, a string's characters in order, or every key of a dict exactly once |
| IngestData.IngestDocuments | scripts/ingest_data.py:69-105 | the shape check, then the loop over the documents, computes the report of the whole run or the error that ends it |
| IngestData.ShapeCheck | scripts/ingest_data.py:69-70 | input that is not an object with a "documents" key is rejected before any document is processed |
| CleanMarkdown.FindOnLine | scripts/transform_data.py:10 | a found position is an occurrence, and no line break lies before it, which is the reach of `.*?` |
| CleanMarkdown.FindOnLineIs | scripts/transform_data.py:10 | the lazy `.*?` stops at the first occurrence on the line |
| CleanMarkdown.ImageLinkLength | scripts/transform_data.py:10 | a match of the image-link pattern is at least five characters long and lies within the text |
| CleanMarkdown.ImageLinkMatched | scripts/transform_data.py:10 | `![alt](url)` on one line, with no "](" in alt and no ')' in url, is matched whole |
| CleanMarkdown.RemoveImagesKeepsPrefix | scripts/transform_data.py:10 | text in which no "![" starts, and which does not end in a '!' that the next text turns into "![", passes through the image removal unchanged |
| CleanMarkdown.ImageLinkRemoved | scripts/transform_data.py:10 | an image link after text in which no "![" starts is removed, and the text around it is kept |
| CleanMarkdown.ImageAfterExclamation | scripts/transform_data.py:10 | an exclamation mark in the prose before a link does not stop its removal: "Hi! ![c](d)" becomes "Hi! " |
| CleanMarkdown.TagLength | scripts/transform_data.py:12 | a tag match is at least three characters long and lies within the text |
| CleanMarkdown.StripTags | scripts/transform_data.py:12 | every character of the result occurs in the input, and a leading '>' survives tag removal |
| CleanMarkdown.StripTagsDeletes | scripts/transform_data.py:12 | tag removal only deletes characters: the result is the input with some characters left out, in order |
| CleanMarkdown.StripTagsTagFree | scripts/transform_data.py:12 | after tag removal no `<...>` tag is left |
| CleanMarkdown.TagFreeUnchanged | scripts/transform_data.py:12 | text without tags is unchanged |
| CleanMarkdown.StripTagsIdempotent | scripts/transform_data.py:12 | removing tags twice is removing them once |
| CleanMarkdown.TagAtFront | scripts/transform_data.py:12 | `<body>` with a non-empty body free of '>' is matched whole |
| CleanMarkdown.StripTagsKeepsPrefix | scripts/transform_data.py:12 | text without '<' passes through the tag removal unchanged |
| CleanMarkdown.TagRemoved | scripts/transform_data.py:12 | a tag is removed and the text around it is kept |
| CleanMarkdown.NoTripleNewlineMeans | scripts/transform_data.py:14 | the recursive "no triple newline" test holds exactly when "\n\n\n" does not occur |
| CleanMarkdown.CollapseRun | scripts/transform_data.py:14 | a leading run of three or more newlines becomes exactly two, and a shorter run is kept |
| CleanMarkdown.CollapseNoTriple | scripts/transform_data.py:14 | the collapsed text never has three newlines in a row |
| CleanMarkdown.CollapseUnchanged | scripts/transform_data.py:14 | text without three newlines in a row is unchanged |
| CleanMarkdown.CollapseKeepsText | scripts/transform_data.py:14 | collapsing removes newlines only: with newlines left out, the text is the same |
| CleanMarkdown.UnescapeEscape | scripts/transform_data.py:16 | undoing the escape `\#` or `\-` inverts escaping every occurrence of the character |
| CleanMarkdown.UnescapeRun | scripts/transform_data.py:16 | undoing an escape leaves leading newline runs as they were |
| CleanMarkdown.UnescapeNoTriple | scripts/transform_data.py:14-16 | undoing an escape creates no triple newline |
| CleanMarkdown.UnescapeNoBackslash | scripts/transform_data.py:16 | text without '\' is unchanged by undoing escapes |
| CleanMarkdown.StripUnchanged | scripts/transform_data.py:17 | text that neither starts nor ends with whitespace is unchanged by `strip` |
| CleanMarkdown.CleanShape | scripts/transform_data.py:7-17 | cleaned text neither starts nor ends with whitespace and never has three newlines in a row |
| CleanMarkdown.CleanPlainText | scripts/transform_data.py:7-17 | text that is already clean is returned unchanged: no "![" starts in it, no '<' or '\', no triple newline, no surrounding whitespace |
| Text.PyStrip | scripts/transform_data.py:17 | `str.strip` returns a contiguous piece of its input that neither starts nor ends with whitespace, and only whitespace is cut off before and after it |
| Text.Strip | scripts/transform_data.py:17 | stripping returns a contiguous piece of the input without surrounding spaces, and only space characters are cut off before and after it |
| Text.StripEmpty | scripts/transform_data.py:17 | the stripped text is empty exactly when the input is all spaces |
| Text.JoinSplit | src/components/ChatMessages.tsx:10 | joining the pieces of a split with the separator gives the text back |
| Text.SplitCharCount | src/components/ChatMessages.tsx:10 | splitting at a character gives one piece more than that character occurs |
| Text.ReplaceFirstAtStart | src/components/ChatMessages.tsx:14 | replacing the prefix a line starts with leaves the rest of the line |
| Text.IndexOf | src/components/ChatMessages.tsx:14 | the first occurrence of the pattern, or -1 exactly when there is none |
| Text.ToLowerAscii | src/__mocks__/chromaClient.ts:24 | lower-casing keeps the length |
| Text.ToLowerAsciiAppend | src/__mocks__/chromaClient.ts:24 | lower-casing works character by character over a concatenation |
| Text.DecimalRoundTrip | scripts/ingest_data.py:30 | the decimal text `str` gives a natural number reads back as that number |
| HtmlText.LineEnd | scripts/transform_data.py:28 | the first line ends at the first line boundary of `str.splitlines` |
| HtmlText.SplitLines | scripts/transform_data.py:28 | no line of `splitlines` holds a line boundary; empty text has no lines, otherwise the first line is the text up to its first boundary; there are never more lines than characters |
| HtmlText.SplitLinesAtNewline | scripts/transform_data.py:28 | a '\n' ends the first line and is dropped |
| HtmlText.SplitLinesOneLine | scripts/transform_data.py:28 | text without a boundary is one line |
| HtmlText.SplitLinesAfterLine | scripts/transform_data.py:28 | a boundary-free line followed by '\n' is the first line, and the rest is split on its own |
| HtmlText.NonEmpty | scripts/transform_data.py:30 | the `if chunk` filter keeps exactly the non-empty phrases |
| HtmlText.PhraseOrigin | scripts/transform_data.py:29 | every phrase is a stripped piece of the stripped line split at double spaces |
| HtmlText.PhraseIsChunk | scripts/transform_data.py:29 | every non-empty phrase is stripped, free of double spaces and free of line boundaries |
| HtmlText.PieceAvoidsDoubleSpace | scripts/transform_data.py:29 | no piece of `split("  ")` holds a double space |
| HtmlText.PieceBreakFree | scripts/transform_data.py:28-29 | a piece of a boundary-free line holds no line boundary |
| HtmlText.ChunksAreChunks | scripts/transform_data.py:28-30 | every chunk of the lines is non-empty, stripped, free of double spaces and free of line boundaries |
| HtmlText.NormalizeLines | scripts/transform_data.py:28-30 | the normalised text is "" when there are no chunks; otherwise splitting it at '\n' gives back the chunks, each non-empty, stripped and free of double spaces |
| HtmlText.JoinSplitLinesChunks | scripts/transform_data.py:28-30 | chunks joined with '\n' are split back into the same chunks by `splitlines` |
| HtmlText.JoinSplitLinesCons | scripts/transform_data.py:28-30 | a first chunk joined by '\n' in front of chunks that split back comes back as the first line |
| HtmlText.ChunkPhrases | scripts/transform_data.py:29-30 | a line that is itself a chunk has itself as its only chunk |
| HtmlText.ChunksOfChunks | scripts/transform_data.py:28-30 | lines that are chunks are their own chunks |
| HtmlText.NormalizeIdempotent | scripts/transform_data.py:28-30 | normalising normalised text changes nothing |
| TransformIbw.GatherSnoc | scripts/transform_data.py:61-70 | one more item either appends its cleaned content or ends the run with its error |
| TransformIbw.GatherStep | scripts/transform_data.py:61-70 | the loop step over the item at position `j` |
| TransformIbw.GatherStopsAtError | scripts/transform_data.py:61-70 | an exception on an item ends the whole run with that error, whatever follows |
| TransformIbw.FileErrorEndsRun | scripts/transform_data.py:63-66 | loaded data that is not iterable, or that yields non-dict items, ends the run with an error |
| TransformIbw.ItemFailsFile | scripts/transform_data.py:66-70 | an item that is not a dict, or whose markdown is not a string, ends the loop over its file with that error |
| TransformIbw.FileFailsRun | scripts/transform_data.py:61-70 | a file one of whose items fails ends the whole run with that error |
| TransformIbw.ItemRead | scripts/transform_data.py:66-70 | an item with string markdown, or with none (read as ""), adds its cleaned content |
| TransformIbw.FileRead | scripts/transform_data.py:61-70 | a file whose items were all read adds their contents after those of the earlier files |
| TransformIbw.SectionContentsSnoc | scripts/transform_data.py:73-83 | a new content is appended to a section exactly when it routes there |
| TransformIbw.SectionContentsAppend | scripts/transform_data.py:73-83 | order within a section follows input order: contents read one after the other are routed one after the other |
| TransformIbw.SectionMembers | scripts/transform_data.py:73-83 | a content is in a section exactly when it was read, names the programme and contains one of the section's two keywords |
| TransformIbw.SeveralSections | scripts/transform_data.py:76-79 | the keyword tests are independent: one content can land in more than one section |
| TransformIbw.UnroutedWithoutProgramName | scripts/transform_data.py:73 | content not naming "Internationale Betriebswirtschaft" is in no section |
| TransformIbw.RouteContent | scripts/transform_data.py:73-83 | the five keyword tests append the content to exactly the sections it routes to and leave the others as they were |
| TransformIbw.RouteStep | scripts/transform_data.py:73-83 | after the five tests every section holds the contents routed to it so far |
| TransformIbw.AssembleFollowsSections | scripts/transform_data.py:86-96 | the i-th document is the document of the i-th non-empty section |
| TransformIbw.NonEmptySectionsOrdered | scripts/transform_data.py:86-87 | the non-empty sections are listed in strictly increasing declaration order |
| TransformIbw.NonEmptySectionsBelow | scripts/transform_data.py:86-87 | walking the first n sections lists only sections among those n |
| TransformIbw.NonEmptySectionsMembers | scripts/transform_data.py:86-87 | a section is listed exactly when it is among the sections walked and received content |
| TransformIbw.DocumentsPerSection | scripts/transform_data.py:86-96 | there is exactly one document per non-empty section, in the order program_overview, curriculum, international, practical, admission; its markdown is "# " + title + "\n\n" + the contents joined with "\n\n"; source and section are the key, and type is "program_details" |
| TransformIbw.OutputCounts | scripts/transform_data.py:99-101 | `total_documents` is the number of documents, which is at most five |
| TransformIbw.NoProgramNoDocuments | scripts/transform_data.py:73-96 | input that never names the programme gives no documents |
| TransformIbw.TransformIbwData | scripts/transform_data.py:33-107 | the file loop and the section loop compute the output of the whole transformation, or the exception that ends it, and `total_documents` equals the number of documents |
| TransformIbw.RouteFile | scripts/transform_data.py:66-83 | the item loop over one file routes every cleaned content into the sections it belongs to, or returns the first item's error |
| TransformIbw.AddContent | scripts/transform_data.py:73-83 | after one item the sections hold, for every key, exactly the contents so far that route to it |
| TransformIbw.AssembleDocuments | scripts/transform_data.py:86-97 | the section loop yields the documents of the non-empty sections in section order |

## Left out

- The avatar clients: `src/lib/avatarClient.ts` keeps the HeyGen session in a module-level handle; `src/lib/heygenClient.ts` creates the session and hands it back to the caller, and its speak call takes the session as a parameter. Both are single calls into the HeyGen SDK with no segmentation, queueing or retry logic of their own; neither is modelled.
- File reads and writes, `load_dotenv`, the API-key check, the Chroma client and collection set-up, logging and `print`: these are I/O. The models start from the parsed JSON value and end with the value that is written or added.
- `collection.add`: this is a foreign call. The model takes its effect as the document being stored. A failure inside it, such as a duplicate id, is not modelled; it would be reported and skipped like any other failure.
- The title lookup in the ingest loop: it only feeds log lines. It fails where the "metadata" lookup fails, so the outcome is the same.
- The embedding calls, `hashlib.md5`, `uuidv4`, `JSON.stringify` and Python's `repr` of a list or dict: these are foreign calls, so they are parameters.
- Python's `repr` of a string inside a list: this is the `repr` parameter too.
- BeautifulSoup parsing, the removal of script and style elements, and `get_text`: these are a foreign library. The normalisation starts from the extracted text.
- The JSX rendering of the chat messages: this is UI.
- `async` and promises in the mock service and the loader: the model is sequential.
- JSON numbers: only integers are modelled. Floating point and JavaScript's exponent notation for large numbers are not.
- The order in which a dict's keys are visited: the model visits them in some order. The sanitised records are maps, so their order does not matter.
- MockChroma.ChromaService.Query: lower-cases ASCII letters only. None of the keywords can match differently under full Unicode lower-casing.
- MockChroma.InstanceSlot: the static field `ChromaService.instance` is a separate object passed to `GetInstance`, because Dafny has no static mutable fields.
- CleanMarkdown.ImageLinkRemoved: stated for links after text in which no "![" starts. An earlier unclosed "![" can start a match that swallows the link, so the link is not removed on its own there.
- TransformIbw.FileErrorEndsRun: a non-empty dict or string as a whole file is modelled as an error straight away. The script first iterates it and then fails on the first key's or character's `.get`; the outcome is the same.
- TransformIbw.RouteContent: the five keyword tests are a method called from the item loop rather than written inline. Its contract states what the inline code does to the sections.
- HtmlText.JoinSplitLinesChunks: `splitlines` is proved to invert `join` only for boundary-free, non-empty lines such as chunks, not for arbitrary text.
- `extract_content_from_html` is not called from `transform_ibw_data`, so the normalisation is modelled on its own.
- Writing the output with `json.dump(..., ensure_ascii=False, indent=2)`: this is I/O.
