/**
 * The Python ingestion script: checks the shape of the loaded JSON, then walks
 * the documents one by one. A document whose processing raises is reported by
 * its 1-based position and skipped; the others are stored with an id derived
 * from their text, their embedding and their metadata turned into strings.
 *
 * The hash (`hashlib.md5(...).hexdigest()`), the embedding service and
 * Python's `repr` of a container are parameters: `md5hex`, `embed` (`None`
 * when the call raises) and `repr`.
 */
module IngestData {
  import opened Results
  import opened Text
  import opened Json

  // ------------------------------------------------------------------ metadata

  /** `str(v)` for a value `json.load` produced; lists and dicts are rendered by `repr`. */
  function PyStr(v: Value, repr: Value -> string): string {
    match v
    case JNull => "None"
    case JBool(b) => if b then "True" else "False"
    case JNum(n) => IntToDecimal(n)
    case JStr(s) => s
    case JArray(_) => repr(v)
    case JObject(_) => repr(v)
  }

  /** `', '.join(str(v) for v in value)` for a list value. */
  function JoinList(xs: seq<Value>, repr: Value -> string): string {
    Join(seq(|xs|, i requires 0 <= i < |xs| => PyStr(xs[i], repr)), ", ")
  }

  /** The string `prepare_metadata` stores for one value. */
  function PreparedValue(v: Value, repr: Value -> string): string {
    if v.JArray? then JoinList(v.items, repr) else PyStr(v, repr)
  }

  /** The record `prepare_metadata` returns. */
  function Prepared(metadata: map<string, Value>, repr: Value -> string): map<string, string> {
    map k | k in metadata :: PreparedValue(metadata[k], repr)
  }

  /** `prepare_metadata`: every key is kept and every value becomes a string. */
  method PrepareMetadata(metadata: map<string, Value>, repr: Value -> string)
    returns (processed: map<string, string>)
    ensures processed.Keys == metadata.Keys
    ensures forall k :: k in metadata ==> processed[k] == PreparedValue(metadata[k], repr)
    ensures processed == Prepared(metadata, repr)
  {
    processed := map[];
    var pending := metadata.Keys;
    while pending != {}
      invariant pending <= metadata.Keys
      invariant processed.Keys == metadata.Keys - pending
      invariant forall k :: k in processed ==> processed[k] == PreparedValue(metadata[k], repr)
      decreases pending
    {
      var key :| key in pending;
      var value := metadata[key];
      if value.JArray? {
        processed := processed[key := JoinList(value.items, repr)];
      } else {
        processed := processed[key := PyStr(value, repr)];
      }
      pending := pending - {key};
    }
  }

  /** A record of strings, read back, is prepared to itself: preparing is idempotent. */
  lemma PreparedIdempotent(metadata: map<string, Value>, repr: Value -> string, repr2: Value -> string)
    ensures var once := Prepared(metadata, repr);
            Prepared(map k | k in once :: JStr(once[k]), repr2) == once
  {
  }

  /** A list of strings is its elements separated by ", "; the empty list becomes "". */
  lemma StringListJoined(xs: seq<string>, repr: Value -> string)
    ensures PreparedValue(JArray(seq(|xs|, i requires 0 <= i < |xs| => JStr(xs[i]))), repr) == Join(xs, ", ")
    ensures PreparedValue(JArray([]), repr) == ""
  {
    var vs := seq(|xs|, i requires 0 <= i < |xs| => JStr(xs[i]));
    assert seq(|vs|, i requires 0 <= i < |vs| => PyStr(vs[i], repr)) == xs;
  }

  /** Scalars are written the Python way: `None`, `True`, `False`. */
  lemma PythonScalars(repr: Value -> string)
    ensures PreparedValue(JNull, repr) == "None"
    ensures PreparedValue(JBool(true), repr) == "True" && PreparedValue(JBool(false), repr) == "False"
    ensures PreparedValue(JArray([JNull, JBool(true)]), repr) == "None, True"
  {
    var vs := [JNull, JBool(true)];
    var strs := ["None", "True"];
    assert seq(|vs|, i requires 0 <= i < |vs| => PyStr(vs[i], repr)) == strs;
    assert strs[1..] == ["True"];
  }

  // ------------------------------------------------------------------ one document

  /** `generate_document_id`: the hex digest of the text. */
  function GenerateDocumentId(text: string, md5hex: string -> string): string {
    md5hex(text)
  }

  /** What `collection.add` receives for one document. */
  datatype StoredDocument = StoredDocument(id: string, document: string, embedding: seq<real>, metadata: map<string, string>)

  /**
   * The body of the inner `try`: `None` when it raises. It raises when the
   * document is not a dict, when its "metadata" is missing or not a dict
   * (`.get` is called on it), when its "markdown" is missing or not a string
   * (`.encode` is called on it), and when the embedding call fails.
   */
  function ProcessDocument(doc: Value, md5hex: string -> string, embed: string -> Option<seq<real>>, repr: Value -> string): Option<StoredDocument> {
    if !doc.JObject? || "metadata" !in doc.fields || !doc.fields["metadata"].JObject? then None
    else if "markdown" !in doc.fields || !doc.fields["markdown"].JStr? then None
    else
      var markdown := doc.fields["markdown"].s;
      match embed(markdown)
      case None => None
      case Some(e) => Some(StoredDocument(GenerateDocumentId(markdown, md5hex), markdown, e, Prepared(doc.fields["metadata"].fields, repr)))
  }

  /** The inner `try` block, step by step in the order of the script. */
  method ProcessOne(doc: Value, md5hex: string -> string, embed: string -> Option<seq<real>>, repr: Value -> string)
    returns (stored: Option<StoredDocument>)
    ensures stored == ProcessDocument(doc, md5hex, embed, repr)
  {
    if !doc.JObject? || "metadata" !in doc.fields || !doc.fields["metadata"].JObject? {
      return None;
    }
    if "markdown" !in doc.fields || !doc.fields["markdown"].JStr? {
      return None;
    }
    var markdown := doc.fields["markdown"].s;
    var docId := GenerateDocumentId(markdown, md5hex);
    var embedding := embed(markdown);
    if embedding.None? {
      return None;
    }
    var metadata := PrepareMetadata(doc.fields["metadata"].fields, repr);
    stored := Some(StoredDocument(docId, markdown, embedding.value, metadata));
  }

  // ------------------------------------------------------------------ the loop

  /** The documents added, in order, and the 1-based positions of those that failed. */
  datatype Report = Report(added: seq<StoredDocument>, failed: seq<nat>)

  /** The processing of one document, as `ProcessDocument` with the foreign calls fixed. */
  type Step = Value -> Option<StoredDocument>

  /** Processing `items`, the first of which has position `first`. */
  function ProcessFrom(items: seq<Value>, first: nat, step: Step): Report
    decreases |items|
  {
    if items == [] then Report([], [])
    else
      var rest := ProcessFrom(items[1..], first + 1, step);
      match step(items[0])
      case Some(d) => Report([d] + rest.added, rest.failed)
      case None => Report(rest.added, [first] + rest.failed)
  }

  /** Processing runs document by document: two runs one after the other give their reports concatenated. */
  lemma {:induction false} ProcessFromAppend(a: seq<Value>, b: seq<Value>, first: nat, step: Step)
    ensures ProcessFrom(a + b, first, step).added
              == ProcessFrom(a, first, step).added + ProcessFrom(b, first + |a|, step).added
    ensures ProcessFrom(a + b, first, step).failed
              == ProcessFrom(a, first, step).failed + ProcessFrom(b, first + |a|, step).failed
    decreases |a|
  {
    if a == [] {
      assert a + b == b;
    } else {
      ProcessFromAppend(a[1..], b, first + 1, step);
      AppendTail(a, b);
      ProcessFromCons(a + b, first, step);
      ProcessFromCons(a, first, step);
    }
  }

  /** The first document's outcome comes first in the report. */
  lemma ProcessFromCons(items: seq<Value>, first: nat, step: Step)
    requires items != []
    ensures ProcessFrom(items, first, step)
              == match step(items[0])
                 case Some(d) => Report([d] + ProcessFrom(items[1..], first + 1, step).added, ProcessFrom(items[1..], first + 1, step).failed)
                 case None => Report(ProcessFrom(items[1..], first + 1, step).added, [first] + ProcessFrom(items[1..], first + 1, step).failed)
  {
  }

  /** One more document extends the report by its outcome. */
  lemma ProcessFromSnoc(items: seq<Value>, i: nat, first: nat, step: Step)
    requires i < |items|
    ensures ProcessFrom(items[..i + 1], first, step)
              == match step(items[i])
                 case Some(d) => Report(ProcessFrom(items[..i], first, step).added + [d], ProcessFrom(items[..i], first, step).failed)
                 case None => Report(ProcessFrom(items[..i], first, step).added, ProcessFrom(items[..i], first, step).failed + [first + i])
  {
    SnocSlice(items, i);
    ProcessFromAppend(items[..i], [items[i]], first, step);
    ProcessFromOne(items[i], first + i, step);
  }

  lemma ProcessFromOne(item: Value, first: nat, step: Step)
    ensures ProcessFrom([item], first, step)
              == match step(item) case Some(d) => Report([d], []) case None => Report([], [first])
  {
    assert [item][1..] == [];
  }

  lemma SnocSlice<A>(xs: seq<A>, i: nat)
    requires i < |xs|
    ensures xs[..i + 1] == xs[..i] + [xs[i]] && |xs[..i]| == i
  {
  }

  /**
   * Every document is accounted for exactly once, and the failures are
   * listed in increasing order within the positions of the run.
   */
  lemma {:induction false} ProcessFromAccounts(items: seq<Value>, first: nat, step: Step)
    ensures var r := ProcessFrom(items, first, step);
            |r.added| + |r.failed| == |items|
            && (forall j :: 0 <= j < |r.failed| ==> first <= r.failed[j] < first + |items|)
            && (forall j, k :: 0 <= j < k < |r.failed| ==> r.failed[j] < r.failed[k])
    decreases |items|
  {
    if items != [] {
      ProcessFromAccounts(items[1..], first + 1, step);
    }
  }

  lemma MiddleElement<A>(before: seq<A>, x: A, after: seq<A>)
    ensures |before + [x]| == |before| + 1 && (before + [x] + after)[|before|] == x
  {
  }

  /** Every stored document is the result of the step on one of the items. */
  lemma {:induction false} AddedFromItems(items: seq<Value>, first: nat, step: Step)
    ensures forall d :: d in ProcessFrom(items, first, step).added ==> exists v :: v in items && step(v) == Some(d)
    decreases |items|
  {
    if items != [] {
      AddedFromItems(items[1..], first + 1, step);
      forall d | d in ProcessFrom(items, first, step).added ensures exists v :: v in items && step(v) == Some(d) {
        if d in ProcessFrom(items[1..], first + 1, step).added {
          var v :| v in items[1..] && step(v) == Some(d);
          assert v in items;
        } else {
          assert step(items[0]) == Some(d);
        }
      }
    }
  }

  /** Position `first + i` is reported as failed exactly when the document there fails. */
  lemma {:induction false} FailedExactly(items: seq<Value>, first: nat, i: nat, step: Step)
    requires i < |items|
    ensures first + i in ProcessFrom(items, first, step).failed <==> step(items[i]).None?
    decreases |items|
  {
    ProcessFromAccounts(items[1..], first + 1, step);
    if i > 0 {
      FailedExactly(items[1..], first + 1, i - 1, step);
    }
  }

  /** The documents a run adds do not depend on where the run starts counting. */
  lemma {:induction false} AddedIgnoresPositions(items: seq<Value>, first1: nat, first2: nat, step: Step)
    ensures ProcessFrom(items, first1, step).added == ProcessFrom(items, first2, step).added
    decreases |items|
  {
    if items != [] {
      AddedIgnoresPositions(items[1..], first1 + 1, first2 + 1, step);
    }
  }

  /**
   * A failing document is skipped and the loop goes on: the documents added
   * are those before it followed by those after it, and its position is
   * among the failures.
   */
  lemma SkipOnError(before: seq<Value>, bad: Value, after: seq<Value>, first: nat, step: Step)
    requires step(bad).None?
    ensures ProcessFrom(before + [bad] + after, first, step).added
              == ProcessFrom(before, first, step).added + ProcessFrom(after, first, step).added
    ensures first + |before| in ProcessFrom(before + [bad] + after, first, step).failed
  {
    MiddleElement(before, bad, after);
    ProcessFromAppend(before + [bad], after, first, step);
    ProcessFromAppend(before, [bad], first, step);
    ProcessFromOne(bad, first + |before|, step);
    assert ProcessFrom(before + [bad], first, step).added == ProcessFrom(before, first, step).added;
    AddedIgnoresPositions(after, first + |before| + 1, first, step);
    FailedExactly(before + [bad] + after, first, |before|, step);
  }

  /** Every document stored by `ProcessDocument` carries the digest of its own text as its id. */
  lemma StoredIdIsDigest(doc: Value, md5hex: string -> string, embed: string -> Option<seq<real>>, repr: Value -> string)
    requires ProcessDocument(doc, md5hex, embed, repr).Some?
    ensures var d := ProcessDocument(doc, md5hex, embed, repr).value;
            d.id == md5hex(d.document) && d.document == doc.fields["markdown"].s
  {
  }

  /** Two stored documents with the same text carry the same id, whichever run stored them. */
  lemma SameTextSameId(items1: seq<Value>, items2: seq<Value>, md5hex: string -> string, embed: string -> Option<seq<real>>, repr: Value -> string, d1: StoredDocument, d2: StoredDocument)
    requires d1 in ProcessFrom(items1, 1, doc => ProcessDocument(doc, md5hex, embed, repr)).added
    requires d2 in ProcessFrom(items2, 1, doc => ProcessDocument(doc, md5hex, embed, repr)).added
    requires d1.document == d2.document
    ensures d1.id == d2.id
  {
    var step := doc => ProcessDocument(doc, md5hex, embed, repr);
    AddedFromItems(items1, 1, step);
    AddedFromItems(items2, 1, step);
    var v1 :| v1 in items1 && step(v1) == Some(d1);
    var v2 :| v2 in items2 && step(v2) == Some(d2);
    StoredIdIsDigest(v1, md5hex, embed, repr);
    StoredIdIsDigest(v2, md5hex, embed, repr);
  }

  // ------------------------------------------------------------------ the script

  /** The errors that end `ingest_documents` (they are re-raised). */
  datatype IngestError =
    | InvalidStructure  // "Invalid JSON structure: expected object with 'documents' array"
    | NotSized          // `len(documents)` raises: the documents value is a number, a boolean or null

  const InvalidStructureMessage: string := "Invalid JSON structure: " + "expected object with 'documents' array"

  /** The positions `first`, `first + 1`, ..., `first + n - 1`. */
  function Positions(first: nat, n: nat): (r: seq<nat>)
    ensures |r| == n && forall j :: 0 <= j < n ==> r[j] == first + j
  {
    seq(n, j requires 0 <= j < n => first + j)
  }

  /**
   * The outcome of the document loop of `ingest_documents` on the loaded
   * data. Walking a string visits its characters and walking a dict its
   * keys; both are strings, on which `doc['metadata']` raises, so every
   * position fails.
   */
  function Ingest(data: Value, md5hex: string -> string, embed: string -> Option<seq<real>>, repr: Value -> string): Result<Report, IngestError> {
    if !data.JObject? || "documents" !in data.fields then Err(InvalidStructure)
    else
      match data.fields["documents"]
      case JArray(docs) => Ok(ProcessFrom(docs, 1, doc => ProcessDocument(doc, md5hex, embed, repr)))
      case JStr(s) => Ok(Report([], Positions(1, |s|)))
      case JObject(m) => Ok(Report([], Positions(1, |m|)))
      case _ => Err(NotSized)
  }

  /** A run over strings only fails at every position. */
  lemma {:induction false} StringsAllFail(items: seq<Value>, first: nat, md5hex: string -> string, embed: string -> Option<seq<real>>, repr: Value -> string)
    requires forall j :: 0 <= j < |items| ==> items[j].JStr?
    ensures ProcessFrom(items, first, doc => ProcessDocument(doc, md5hex, embed, repr)) == Report([], Positions(first, |items|))
    decreases |items|
  {
    if items != [] {
      StringsAllFail(items[1..], first + 1, md5hex, embed, repr);
      assert [first] + Positions(first + 1, |items| - 1) == Positions(first, |items|);
    }
  }

  /**
   * The values `for doc in documents` visits: a list's elements, a string's
   * characters in order, or a dict's keys, each once, in some order.
   */
  method Iterate(documents: Value) returns (items: seq<Value>)
    requires documents.JArray? || documents.JStr? || documents.JObject?
    ensures documents.JArray? ==> items == documents.items
    ensures documents.JStr? ==> |items| == |documents.s|
    ensures documents.JStr? ==> forall j :: 0 <= j < |items| ==> items[j] == JStr([documents.s[j]])
    ensures documents.JObject? ==> |items| == |documents.fields|
    ensures documents.JObject? ==> forall j :: 0 <= j < |items| ==> items[j].JStr? && items[j].s in documents.fields
    ensures documents.JObject? ==> forall k :: k in documents.fields ==> JStr(k) in items
    ensures documents.JObject? ==> forall i, j :: 0 <= i < j < |items| ==> items[i] != items[j]
    ensures !documents.JArray? ==> forall j :: 0 <= j < |items| ==> items[j].JStr?
  {
    match documents
    case JArray(xs) =>
      items := xs;
    case JStr(s) =>
      items := seq(|s|, j requires 0 <= j < |s| => JStr([s[j]]));
    case JObject(m) =>
      items := [];
      var keys := m.Keys;
      while keys != {}
        invariant keys <= m.Keys
        invariant |items| + |keys| == |m|
        invariant forall j :: 0 <= j < |items| ==> items[j].JStr? && items[j].s in m && items[j].s !in keys
        invariant forall k :: k in m && k !in keys ==> JStr(k) in items
        invariant forall i, j :: 0 <= i < j < |items| ==> items[i] != items[j]
        decreases keys
      {
        var key :| key in keys;
        items := items + [JStr(key)];
        keys := keys - {key};
      }
  }

  /**
   * `ingest_documents` after loading: the shape check, then the loop with
   * its per-document `try`/`except ... continue`.
   */
  method IngestDocuments(data: Value, md5hex: string -> string, embed: string -> Option<seq<real>>, repr: Value -> string)
    returns (outcome: Result<Report, IngestError>)
    ensures outcome == Ingest(data, md5hex, embed, repr)
  {
    if !data.JObject? || "documents" !in data.fields {
      return Err(InvalidStructure);
    }
    var documents := data.fields["documents"];
    if !(documents.JArray? || documents.JStr? || documents.JObject?) {
      return Err(NotSized);
    }
    var items := Iterate(documents);
    ghost var step: Step := doc => ProcessDocument(doc, md5hex, embed, repr);
    var added: seq<StoredDocument> := [];
    var failed: seq<nat> := [];
    var i := 0;
    while i < |items|
      invariant 0 <= i <= |items|
      invariant Report(added, failed) == ProcessFrom(items[..i], 1, step)
    {
      var stored := ProcessOne(items[i], md5hex, embed, repr);
      ProcessFromSnoc(items, i, 1, step);
      match stored {
        case Some(d) =>
          added := added + [d];
        case None =>
          failed := failed + [i + 1];
      }
      i := i + 1;
    }
    assert items[..i] == items;
    if !documents.JArray? {
      StringsAllFail(items, 1, md5hex, embed, repr);
    }
    outcome := Ok(Report(added, failed));
  }

  /** Data without a "documents" key is rejected before any document is looked at. */
  lemma ShapeCheck(data: Value, md5hex: string -> string, embed: string -> Option<seq<real>>, repr: Value -> string)
    ensures Ingest(data, md5hex, embed, repr) == Err(InvalidStructure)
            <==> !data.JObject? || "documents" !in data.fields
  {
  }
}
