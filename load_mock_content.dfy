/**
 * The loader script for the mock content: every document's metadata record
 * is sanitised into string, number and boolean values, and the documents,
 * their sanitised metadata and fresh ids are lined up index by index before
 * they are sent to the vector store.
 */
module LoadMockContent {
  import opened Text
  import opened Json

  /** A value the vector store accepts in metadata: `string | number | boolean`. */
  datatype Scalar = SStr(s: string) | SNum(n: int) | SBool(b: bool)

  /**
   * How `Array.prototype.join` renders one element: null as the empty
   * string, a nested array joined with ",", an object as "[object Object]".
   */
  function JoinElement(v: Value): string
    decreases v
  {
    match v
    case JNull => ""
    case JBool(b) => if b then "true" else "false"
    case JNum(n) => IntToDecimal(n)
    case JStr(s) => s
    case JArray(xs) => Join(seq(|xs|, i requires 0 <= i < |xs| => JoinElement(xs[i])), ",")
    case JObject(_) => "[object Object]"
  }

  /** `value.join(', ')` for an array value. */
  function JoinArray(xs: seq<Value>): string {
    Join(seq(|xs|, i requires 0 <= i < |xs| => JoinElement(xs[i])), ", ")
  }

  /**
   * The scalar `sanitizeMetadata` stores for one value. The array test comes
   * before the object test; `stringify` is `JSON.stringify`.
   */
  function SanitizeValue(v: Value, stringify: Value -> string): Scalar {
    match v
    case JArray(xs) => SStr(JoinArray(xs))
    case JObject(_) => SStr(stringify(v))
    case JStr(s) => SStr(s)
    case JNum(n) => SNum(n)
    case JBool(b) => SBool(b)
    case JNull => SStr("null")
  }

  /**
   * The one key an assignment `sanitized[key] = ...` on a plain object does
   * not store: `JSON.parse` makes "__proto__" an own property, but assigning
   * it calls the prototype setter, which ignores the string, number or
   * boolean that every sanitised value is.
   */
  const ProtoKey: string := "__proto__"

  /** The record `sanitizeMetadata` returns. */
  function Sanitized(metadata: map<string, Value>, stringify: Value -> string): map<string, Scalar> {
    map k | k in metadata && k != ProtoKey :: SanitizeValue(metadata[k], stringify)
  }

  /**
   * `sanitizeMetadata`: fills the result key by key. It keeps exactly the
   * input's keys other than "__proto__" and stores for each the scalar
   * `SanitizeValue` gives.
   */
  method SanitizeMetadata(metadata: map<string, Value>, stringify: Value -> string)
    returns (sanitized: map<string, Scalar>)
    ensures sanitized.Keys == metadata.Keys - {ProtoKey}
    ensures forall k :: k in metadata && k != ProtoKey ==> sanitized[k] == SanitizeValue(metadata[k], stringify)
    ensures sanitized == Sanitized(metadata, stringify)
  {
    sanitized := map[];
    var pending := metadata.Keys;
    while pending != {}
      invariant pending <= metadata.Keys
      invariant sanitized.Keys == metadata.Keys - pending - {ProtoKey}
      invariant forall k :: k in sanitized ==> sanitized[k] == SanitizeValue(metadata[k], stringify)
      decreases pending
    {
      var key :| key in pending;
      var value := metadata[key];
      if key == ProtoKey {
        // the prototype setter ignores a primitive value: nothing is stored
      } else if value.JArray? {
        sanitized := sanitized[key := SStr(JoinArray(value.items))];
      } else if value.JObject? {
        sanitized := sanitized[key := SStr(stringify(value))];
      } else if value.JStr? {
        sanitized := sanitized[key := SStr(value.s)];
      } else if value.JNum? {
        sanitized := sanitized[key := SNum(value.n)];
      } else if value.JBool? {
        sanitized := sanitized[key := SBool(value.b)];
      } else {
        sanitized := sanitized[key := SStr("null")];
      }
      pending := pending - {key};
    }
  }

  /** The JSON value a scalar is read back as. */
  function ScalarValue(x: Scalar): Value {
    match x
    case SStr(s) => JStr(s)
    case SNum(n) => JNum(n)
    case SBool(b) => JBool(b)
  }

  /** Sanitising is idempotent: a sanitised record, read back, sanitises to itself. */
  lemma SanitizedIdempotent(metadata: map<string, Value>, stringify: Value -> string, stringify2: Value -> string)
    ensures var once := Sanitized(metadata, stringify);
            Sanitized(map k | k in once :: ScalarValue(once[k]), stringify2) == once
  {
    var once := Sanitized(metadata, stringify);
    var back := map k | k in once :: ScalarValue(once[k]);
    var twice := Sanitized(back, stringify2);
    assert twice.Keys == once.Keys;
    forall k | k in once ensures twice[k] == once[k] {
      match once[k]
      case SStr(s) =>
      case SNum(n) =>
      case SBool(b) =>
    }
  }

  /** Arrays are joined and never reach `JSON.stringify`: the result does not depend on it. */
  lemma ArrayNotStringified(xs: seq<Value>, stringify1: Value -> string, stringify2: Value -> string)
    ensures SanitizeValue(JArray(xs), stringify1) == SanitizeValue(JArray(xs), stringify2) == SStr(JoinArray(xs))
  {
  }

  /** An array of strings is its elements separated by ", "; the empty array gives the empty string. */
  lemma {:induction false} StringArrayJoined(xs: seq<string>)
    ensures JoinArray(seq(|xs|, i requires 0 <= i < |xs| => JStr(xs[i]))) == Join(xs, ", ")
    ensures JoinArray([]) == ""
  {
    var vs := seq(|xs|, i requires 0 <= i < |xs| => JStr(xs[i]));
    assert seq(|vs|, i requires 0 <= i < |vs| => JoinElement(vs[i])) == xs;
  }

  /** A document as the mock content file holds it. */
  datatype MockDocument = MockDocument(markdown: string, metadata: map<string, Value>)

  /** The three parallel lists sent to the vector store. */
  datatype Batch = Batch(documents: seq<string>, metadatas: seq<map<string, Scalar>>, ids: seq<string>)

  /**
   * The `map` calls of `loadMockData`: the three lists have one entry per
   * document, index-aligned with the input. `uuid(i)` is the i-th call of
   * `uuidv4`.
   */
  function PrepareBatch(docs: seq<MockDocument>, stringify: Value -> string, uuid: nat -> string): (b: Batch)
    ensures |b.documents| == |docs| && |b.metadatas| == |docs| && |b.ids| == |docs|
    ensures forall i :: 0 <= i < |docs| ==>
      b.documents[i] == docs[i].markdown && b.metadatas[i] == Sanitized(docs[i].metadata, stringify)
  {
    var documents := seq(|docs|, i requires 0 <= i < |docs| => docs[i].markdown);
    var metadatas := seq(|docs|, i requires 0 <= i < |docs| => Sanitized(docs[i].metadata, stringify));
    var ids := seq(|documents|, i requires 0 <= i < |documents| => uuid(i));
    Batch(documents, metadatas, ids)
  }

  /** As long as `uuidv4` never repeats itself, the ids of a batch are pairwise distinct. */
  lemma BatchIdsDistinct(docs: seq<MockDocument>, stringify: Value -> string, uuid: nat -> string)
    requires forall i, j :: 0 <= i < j ==> uuid(i) != uuid(j)
    ensures var b := PrepareBatch(docs, stringify, uuid);
            forall i, j :: 0 <= i < j < |b.ids| ==> b.ids[i] != b.ids[j]
  {
  }
}
