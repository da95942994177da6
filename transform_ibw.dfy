/**
 * `transform_ibw_data`: every item of every input file is cleaned and, when
 * its cleaned text names the "Internationale Betriebswirtschaft" programme,
 * appended to each of the five sections whose keywords it contains. Then one
 * document is assembled per non-empty section, in the order the sections
 * are declared, and wrapped with fixed output metadata.
 *
 * Reading the input files is left out: the model starts from the values
 * `json.load` returned, one per file. Writing the output is left out too:
 * the model ends with the value handed to `json.dump`.
 */
module TransformIbw {
  import opened Results
  import opened Text
  import opened Json
  import CleanMarkdown

  // ------------------------------------------------------------------ sections

  datatype SectionKey = ProgramOverview | Curriculum | International | Practical | Admission

  /** The order of the keys in the `sections` dict, which is the order documents are written in. */
  const SectionOrder: seq<SectionKey> := [ProgramOverview, Curriculum, International, Practical, Admission]

  /** The position of a section in `SectionOrder`. */
  function Rank(k: SectionKey): (r: nat)
    ensures r < |SectionOrder| && SectionOrder[r] == k
  {
    match k
    case ProgramOverview => 0
    case Curriculum => 1
    case International => 2
    case Practical => 3
    case Admission => 4
  }

  function KeyName(k: SectionKey): string {
    match k
    case ProgramOverview => "program_overview"
    case Curriculum => "curriculum"
    case International => "international"
    case Practical => "practical"
    case Admission => "admission"
  }

  function Title(k: SectionKey): string {
    match k
    case ProgramOverview => "Internationale Betriebswirtschaft" + " (IBW) - Programm\U{00FC}bersicht"
    case Curriculum => "Studienplan und Module"
    case International => "Internationale Ausrichtung"
    case Practical => "Praxiserfahrung und Karriere"
    case Admission => "Bewerbung und Zulassung"
  }

  /** The two keywords that route content to a section; either one suffices. */
  function Keywords(k: SectionKey): (string, string) {
    match k
    case ProgramOverview => ("Programm Overview", "\U{00DC}berblick")
    case Curriculum => ("Curriculum", "Studienplan")
    case International => ("International", "Ausland")
    case Practical => ("Praxis", "Karriere")
    case Admission => ("Bewerbung", "Zulassung")
  }

  /** The name every routed item must mention. */
  const ProgramName: string := "Internationale Betriebswirtschaft"

  /** The test of section `k`: the content contains one of its two keywords. */
  predicate HasKeyword(content: string, k: SectionKey) {
    Contains(content, Keywords(k).0) || Contains(content, Keywords(k).1)
  }

  /** Cleaned content goes to section `k`: it names the programme and one of the section's keywords. */
  predicate RoutesTo(content: string, k: SectionKey) {
    Contains(content, ProgramName) && HasKeyword(content, k)
  }

  // ------------------------------------------------------------------ reading the items

  /** The ways the script stops with an exception before writing anything. */
  datatype TransformError =
    | NotIterable        // `for item in data` on a number, a boolean or null
    | ItemWithoutGet     // `item.get` on an item that is not a dict (a dict or string file yields string items)
    | MarkdownNotString  // `re.sub` on a "markdown" value that is not a string

  /** The items `for item in data` visits; a non-empty dict or string yields strings, whose `.get` fails. */
  function FileItems(data: Value): Result<seq<Value>, TransformError> {
    match data
    case JArray(xs) => Ok(xs)
    case JObject(m) => if m == map[] then Ok([]) else Err(ItemWithoutGet)
    case JStr(s) => if s == [] then Ok([]) else Err(ItemWithoutGet)
    case _ => Err(NotIterable)
  }

  /** `item.get('markdown', '')`. */
  function ItemMarkdown(item: Value): Result<string, TransformError> {
    if !item.JObject? then Err(ItemWithoutGet)
    else if "markdown" !in item.fields then Ok("")
    else if item.fields["markdown"].JStr? then Ok(item.fields["markdown"].s)
    else Err(MarkdownNotString)
  }

  /** The cleaned content of one item, as a one-element list. */
  function ItemContents(item: Value): Result<seq<string>, TransformError> {
    match ItemMarkdown(item)
    case Err(e) => Err(e)
    case Ok(m) => Ok([CleanMarkdown.Clean(m)])
  }

  /** The outputs of `f` on `xs`, concatenated in order, or the first error met. */
  function Gather<A>(xs: seq<A>, f: A -> Result<seq<string>, TransformError>): Result<seq<string>, TransformError>
    decreases |xs|
  {
    if xs == [] then Ok([])
    else
      match Gather(xs[..|xs| - 1], f)
      case Err(e) => Err(e)
      case Ok(cs) =>
        match f(xs[|xs| - 1])
        case Err(e) => Err(e)
        case Ok(ds) => Ok(cs + ds)
  }

  /** The cleaned contents of one file, in item order. */
  function FileContents(data: Value): Result<seq<string>, TransformError> {
    match FileItems(data)
    case Err(e) => Err(e)
    case Ok(items) => Gather(items, ItemContents)
  }

  /** The cleaned contents of all files, in file order and item order. */
  function AllContents(files: seq<Value>): Result<seq<string>, TransformError> {
    Gather(files, FileContents)
  }

  /** One more element: its output is appended, or its error ends the run. */
  lemma GatherSnoc<A>(xs: seq<A>, x: A, f: A -> Result<seq<string>, TransformError>)
    ensures Gather(xs + [x], f) ==
      match Gather(xs, f)
      case Err(e) => Err(e)
      case Ok(cs) => (match f(x) case Err(e) => Err(e) case Ok(ds) => Ok(cs + ds))
  {
    assert (xs + [x])[..|xs + [x]| - 1] == xs;
  }

  /** The step of a loop over `xs`: the prefix grows by the element at `j`. */
  lemma GatherStep<A>(xs: seq<A>, j: nat, f: A -> Result<seq<string>, TransformError>)
    requires j < |xs|
    ensures Gather(xs[..j + 1], f) ==
      match Gather(xs[..j], f)
      case Err(e) => Err(e)
      case Ok(cs) => (match f(xs[j]) case Err(e) => Err(e) case Ok(ds) => Ok(cs + ds))
  {
    assert xs[..j] + [xs[j]] == xs[..j + 1];
    GatherSnoc(xs[..j], xs[j], f);
  }

  /** An error met on a prefix is the outcome of the whole run: nothing after it is looked at. */
  lemma {:induction false} GatherStopsAtError<A>(xs: seq<A>, j: nat, f: A -> Result<seq<string>, TransformError>)
    requires j <= |xs| && Gather(xs[..j], f).Err?
    ensures Gather(xs, f) == Gather(xs[..j], f)
    decreases |xs| - j
  {
    if j < |xs| {
      GatherSnoc(xs[..j], xs[j], f);
      assert xs[..j] + [xs[j]] == xs[..j + 1];
      GatherStopsAtError(xs, j + 1, f);
    } else {
      assert xs[..j] == xs;
    }
  }

  // ------------------------------------------------------------------ routing

  /** The contents routed to section `k`, in input order. */
  function SectionContents(cs: seq<string>, k: SectionKey): seq<string>
    decreases |cs|
  {
    if cs == [] then []
    else
      var c := cs[|cs| - 1];
      SectionContents(cs[..|cs| - 1], k) + (if RoutesTo(c, k) then [c] else [])
  }

  lemma SectionContentsSnoc(cs: seq<string>, c: string, k: SectionKey)
    ensures SectionContents(cs + [c], k) == SectionContents(cs, k) + (if RoutesTo(c, k) then [c] else [])
  {
    assert (cs + [c])[..|cs + [c]| - 1] == cs;
  }

  /** Routing keeps input order: the contents of two runs are routed one after the other. */
  lemma {:induction false} SectionContentsAppend(a: seq<string>, b: seq<string>, k: SectionKey)
    ensures SectionContents(a + b, k) == SectionContents(a, k) + SectionContents(b, k)
    decreases |b|
  {
    if b == [] {
      assert a + b == a;
    } else {
      var b' := b[..|b| - 1];
      var c := b[|b| - 1];
      assert a + b == (a + b') + [c];
      assert b == b' + [c];
      SectionContentsAppend(a, b', k);
      SectionContentsSnoc(a + b', c, k);
      SectionContentsSnoc(b', c, k);
    }
  }

  /** Content is in a section exactly when it was read and it routes there. */
  lemma {:induction false} SectionMembers(cs: seq<string>, k: SectionKey, c: string)
    ensures c in SectionContents(cs, k) <==> c in cs && RoutesTo(c, k)
    decreases |cs|
  {
    if cs != [] {
      var init := cs[..|cs| - 1];
      SectionMembers(init, k, c);
      assert cs == init + [cs[|cs| - 1]];
    }
  }

  /** The keyword tests are independent: content naming the programme, "Studienplan" and "Ausland" lands in two sections. */
  lemma SeveralSections(a: string, b: string, c: string, d: string)
    ensures var content := a + ProgramName + b + "Studienplan" + c + "Ausland" + d;
            RoutesTo(content, Curriculum) && RoutesTo(content, International)
  {
    var content := a + ProgramName + b + "Studienplan" + c + "Ausland" + d;
    ContainsInfix(a, ProgramName, b + "Studienplan" + c + "Ausland" + d);
    assert content == a + ProgramName + (b + "Studienplan" + c + "Ausland" + d);
    ContainsInfix(a + ProgramName + b, "Studienplan", c + "Ausland" + d);
    assert content == (a + ProgramName + b) + "Studienplan" + (c + "Ausland" + d);
    ContainsInfix(a + ProgramName + b + "Studienplan" + c, "Ausland", d);
  }

  /** Content that does not name the programme is in no section. */
  lemma UnroutedWithoutProgramName(cs: seq<string>, c: string, k: SectionKey)
    requires !Contains(c, ProgramName)
    ensures c !in SectionContents(cs, k)
  {
    SectionMembers(cs, k, c);
  }

  // ------------------------------------------------------------------ assembly

  datatype DocumentMetadata = DocumentMetadata(source: string, section: string, docType: string)

  datatype OutputDocument = OutputDocument(markdown: string, metadata: DocumentMetadata)

  datatype OutputMetadata = OutputMetadata(totalDocuments: nat, createdAt: string, types: seq<string>, sources: seq<string>)

  /** The value written to the output file. */
  datatype Output = Output(metadata: OutputMetadata, documents: seq<OutputDocument>)

  const CreatedAt: string := "2024-01-30T23:21:13.137Z"
  const Types: seq<string> := ["program_info", "curriculum", "admission", "international", "practical"]
  const Sources: seq<string> := ["hs_aalen_website", "study_guide"]

  /** The document of one section. */
  function SectionDocument(k: SectionKey, contents: seq<string>): OutputDocument {
    OutputDocument("# " + Title(k) + "\n\n" + Join(contents, "\n\n"),
                   DocumentMetadata(KeyName(k), KeyName(k), "program_details"))
  }

  /** The keys among the first `n` of `SectionOrder` whose sections received content, in order. */
  function NonEmptySections(cs: seq<string>, n: nat): seq<SectionKey>
    requires n <= |SectionOrder|
    decreases n
  {
    if n == 0 then []
    else
      var k := SectionOrder[n - 1];
      NonEmptySections(cs, n - 1) + (if SectionContents(cs, k) != [] then [k] else [])
  }

  /** The documents for the first `n` sections of `SectionOrder`, in order, skipping empty sections. */
  function Assemble(cs: seq<string>, n: nat): seq<OutputDocument>
    requires n <= |SectionOrder|
    decreases n
  {
    if n == 0 then []
    else
      var k := SectionOrder[n - 1];
      Assemble(cs, n - 1)
        + (if SectionContents(cs, k) != [] then [SectionDocument(k, SectionContents(cs, k))] else [])
  }

  /** The output for the cleaned contents `cs`. */
  function OutputOf(cs: seq<string>): Output {
    var documents := Assemble(cs, |SectionOrder|);
    Output(OutputMetadata(|documents|, CreatedAt, Types, Sources), documents)
  }

  /** The outcome of `transform_ibw_data` on the loaded files. */
  function Transform(files: seq<Value>): Result<Output, TransformError> {
    match AllContents(files)
    case Err(e) => Err(e)
    case Ok(cs) => Ok(OutputOf(cs))
  }

  /** The i-th document belongs to the i-th non-empty section. */
  lemma {:induction false} AssembleFollowsSections(cs: seq<string>, n: nat)
    requires n <= |SectionOrder|
    ensures var docs := Assemble(cs, n);
            var ks := NonEmptySections(cs, n);
            |docs| == |ks|
            && forall i :: 0 <= i < |ks| ==> docs[i] == SectionDocument(ks[i], SectionContents(cs, ks[i]))
    decreases n
  {
    if n > 0 {
      AssembleFollowsSections(cs, n - 1);
    }
  }

  /** The non-empty sections among the first `n` all come from those `n`. */
  lemma {:induction false} NonEmptySectionsBelow(cs: seq<string>, n: nat)
    requires n <= |SectionOrder|
    ensures forall k :: k in NonEmptySections(cs, n) ==> Rank(k) < n
    decreases n
  {
    if n > 0 {
      NonEmptySectionsBelow(cs, n - 1);
      assert Rank(SectionOrder[n - 1]) == n - 1;
    }
  }

  /** The non-empty sections among the first `n` are listed in strictly increasing order. */
  lemma {:induction false} NonEmptySectionsOrdered(cs: seq<string>, n: nat)
    requires n <= |SectionOrder|
    ensures forall i, j :: 0 <= i < j < |NonEmptySections(cs, n)|
              ==> Rank(NonEmptySections(cs, n)[i]) < Rank(NonEmptySections(cs, n)[j])
    decreases n
  {
    if n > 0 {
      NonEmptySectionsOrdered(cs, n - 1);
      NonEmptySectionsBelow(cs, n - 1);
      var prev := NonEmptySections(cs, n - 1);
      var key := SectionOrder[n - 1];
      assert Rank(key) == n - 1;
      var ks := NonEmptySections(cs, n);
      if SectionContents(cs, key) != [] {
        assert ks == prev + [key];
        forall i, j | 0 <= i < j < |ks| ensures Rank(ks[i]) < Rank(ks[j]) {
          assert ks[i] == prev[i] && prev[i] in prev;
          if j == |prev| {
            assert ks[j] == key;
          } else {
            assert ks[j] == prev[j];
          }
        }
      }
    }
  }

  /** A section is among the non-empty sections of the first `n` exactly when it is one of them and received content. */
  lemma {:induction false} NonEmptySectionsMembers(cs: seq<string>, n: nat, k: SectionKey)
    requires n <= |SectionOrder|
    ensures k in NonEmptySections(cs, n) <==> Rank(k) < n && SectionContents(cs, k) != []
    decreases n
  {
    if n > 0 {
      NonEmptySectionsMembers(cs, n - 1, k);
      var key := SectionOrder[n - 1];
      assert Rank(key) == n - 1;
      if Rank(k) == n - 1 {
        assert k == key;
      }
    }
  }

  /**
   * One document per section that received content, in the declared order
   * of the sections; each has the section title as heading followed by the
   * section's contents separated by blank lines, and metadata naming the
   * section as both source and section, of type "program_details".
   */
  lemma DocumentsPerSection(cs: seq<string>)
    ensures var docs := OutputOf(cs).documents;
            var ks := NonEmptySections(cs, |SectionOrder|);
            |docs| == |ks|
            && (forall k :: k in ks <==> SectionContents(cs, k) != [])
            && (forall i, j :: 0 <= i < j < |ks| ==> Rank(ks[i]) < Rank(ks[j]))
            && (forall i :: 0 <= i < |ks| ==>
                  docs[i].markdown == "# " + Title(ks[i]) + "\n\n" + Join(SectionContents(cs, ks[i]), "\n\n")
                  && docs[i].metadata.source == KeyName(ks[i])
                  && docs[i].metadata.section == KeyName(ks[i])
                  && docs[i].metadata.docType == "program_details")
  {
    AssembleFollowsSections(cs, |SectionOrder|);
    NonEmptySectionsOrdered(cs, |SectionOrder|);
    forall k ensures k in NonEmptySections(cs, |SectionOrder|) <==> SectionContents(cs, k) != [] {
      NonEmptySectionsMembers(cs, |SectionOrder|, k);
    }
  }

  /** The count in the metadata is the number of documents, at most one per section. */
  lemma OutputCounts(cs: seq<string>)
    ensures OutputOf(cs).metadata.totalDocuments == |OutputOf(cs).documents| <= |SectionOrder|
  {
    var ks := NonEmptySections(cs, |SectionOrder|);
    AssembleFollowsSections(cs, |SectionOrder|);
    NonEmptySectionsOrdered(cs, |SectionOrder|);
    RanksBoundLength(ks);
  }

  /** Content that never names the programme yields no documents. */
  lemma NoProgramNoDocuments(cs: seq<string>)
    requires forall c :: c in cs ==> !Contains(c, ProgramName)
    ensures OutputOf(cs).documents == []
  {
    var ks := NonEmptySections(cs, |SectionOrder|);
    AssembleFollowsSections(cs, |SectionOrder|);
    if ks != [] {
      var k := ks[0];
      assert k in ks;
      NonEmptySectionsMembers(cs, |SectionOrder|, k);
      var c := SectionContents(cs, k)[0];
      SectionMembers(cs, k, c);
      assert false;
    }
  }

  /** Strictly increasing ranks leave room for at most one key per section. */
  lemma RanksBoundLength(ks: seq<SectionKey>)
    requires forall i, j :: 0 <= i < j < |ks| ==> Rank(ks[i]) < Rank(ks[j])
    ensures |ks| <= |SectionOrder|
  {
    if ks != [] {
      RanksGrow(ks, |ks| - 1);
    }
  }

  lemma {:induction false} RanksGrow(ks: seq<SectionKey>, i: nat)
    requires forall i, j :: 0 <= i < j < |ks| ==> Rank(ks[i]) < Rank(ks[j])
    requires i < |ks|
    ensures Rank(ks[i]) >= i
  {
    if i > 0 {
      RanksGrow(ks, i - 1);
    }
  }

  // ------------------------------------------------------------------ the script

  /** The sections dict holds, for every key, the contents routed to it so far. */
  ghost predicate SectionsHold(sections: map<SectionKey, seq<string>>, cs: seq<string>) {
    forall k: SectionKey :: k in sections && sections[k] == SectionContents(cs, k)
  }

  /**
   * `transform_ibw_data` from the loaded files to the output value: the
   * file loop routes the cleaned contents of every file into the sections,
   * then the sections are walked in order and a document is appended for
   * each non-empty one.
   */
  method TransformIbwData(files: seq<Value>) returns (outcome: Result<Output, TransformError>)
    ensures outcome == Transform(files)
    ensures outcome.Ok? ==> outcome.value.metadata.totalDocuments == |outcome.value.documents|
  {
    var sections: map<SectionKey, seq<string>> :=
      map[ProgramOverview := [], Curriculum := [], International := [], Practical := [], Admission := []];
    ghost var seen: seq<string> := [];
    forall k: SectionKey ensures k in sections && sections[k] == SectionContents(seen, k) {
      match k
      case ProgramOverview =>
      case Curriculum =>
      case International =>
      case Practical =>
      case Admission =>
    }
    for f := 0 to |files|
      invariant AllContents(files[..f]) == Ok(seen)
      invariant SectionsHold(sections, seen)
    {
      var items: seq<Value>;
      match FileItems(files[f]) {
        case Err(e) =>
          FileErrorEndsRun(files, f, e);
          return Err(e);
        case Ok(xs) =>
          items := xs;
      }
      var routed := RouteFile(items, sections, seen);
      match routed {
        case Err(e) =>
          FileFailsRun(files, f, items, e);
          return Err(e);
        case Ok(next) =>
          ghost var fileSeen := Gather(items, ItemContents).value;
          FileRead(files, f, seen, items, fileSeen);
          sections := next;
          seen := seen + fileSeen;
      }
    }
    assert files[..|files|] == files;
    var documents := AssembleDocuments(sections, seen);
    outcome := Ok(Output(OutputMetadata(|documents|, CreatedAt, Types, Sources), documents));
  }

  /**
   * The item loop over one loaded file: every item's markdown is cleaned
   * and routed into the sections, or the first item that fails ends the run
   * with its error.
   */
  method RouteFile(items: seq<Value>, sections: map<SectionKey, seq<string>>, ghost seen: seq<string>)
    returns (outcome: Result<map<SectionKey, seq<string>>, TransformError>)
    requires SectionsHold(sections, seen)
    ensures Gather(items, ItemContents).Err? ==> outcome == Err(Gather(items, ItemContents).error)
    ensures Gather(items, ItemContents).Ok? ==>
              outcome.Ok? && SectionsHold(outcome.value, seen + Gather(items, ItemContents).value)
  {
    var current := sections;
    ghost var fileSeen: seq<string> := [];
    assert seen + fileSeen == seen;
    for j := 0 to |items|
      invariant Gather(items[..j], ItemContents) == Ok(fileSeen)
      invariant SectionsHold(current, seen + fileSeen)
    {
      var content: string;
      match ItemMarkdown(items[j]) {
        case Err(e) =>
          ItemFailsFile(items, j, e);
          return Err(e);
        case Ok(m) =>
          ItemRead(items, j, fileSeen, m);
          content := m;
      }
      content := CleanMarkdown.Clean(content);
      current := AddContent(current, seen + fileSeen, content);
      SnocAssoc(seen, fileSeen, content);
      fileSeen := fileSeen + [content];
    }
    assert items[..|items|] == items;
    outcome := Ok(current);
  }

  /** The section loop: one document per non-empty section, in section order. */
  method AssembleDocuments(sections: map<SectionKey, seq<string>>, ghost cs: seq<string>)
    returns (documents: seq<OutputDocument>)
    requires SectionsHold(sections, cs)
    ensures documents == Assemble(cs, |SectionOrder|)
  {
    documents := [];
    for s := 0 to |SectionOrder|
      invariant documents == Assemble(cs, s)
    {
      var key := SectionOrder[s];
      if sections[key] != [] {
        documents := documents + [SectionDocument(key, sections[key])];
      }
    }
  }

  /** A file that yields no items stops the run with its error. */
  lemma FileErrorEndsRun(files: seq<Value>, f: nat, e: TransformError)
    requires f < |files| && AllContents(files[..f]).Ok? && FileItems(files[f]) == Err(e)
    ensures Transform(files) == Err(e)
  {
    GatherStep(files, f, FileContents);
    GatherStopsAtError(files, f + 1, FileContents);
  }

  /** An item that fails ends the loop over its file with its error. */
  lemma ItemFailsFile(items: seq<Value>, j: nat, e: TransformError)
    requires j < |items| && Gather(items[..j], ItemContents).Ok? && ItemMarkdown(items[j]) == Err(e)
    ensures Gather(items, ItemContents) == Err(e)
  {
    GatherStep(items, j, ItemContents);
    GatherStopsAtError(items, j + 1, ItemContents);
  }

  /** A file one of whose items fails ends the run with that error. */
  lemma FileFailsRun(files: seq<Value>, f: nat, items: seq<Value>, e: TransformError)
    requires f < |files| && AllContents(files[..f]).Ok? && FileItems(files[f]) == Ok(items)
    requires Gather(items, ItemContents) == Err(e)
    ensures Transform(files) == Err(e)
  {
    GatherStep(files, f, FileContents);
    GatherStopsAtError(files, f + 1, FileContents);
  }

  /** An item with markdown adds its cleaned content. */
  lemma ItemRead(items: seq<Value>, j: nat, fileSeen: seq<string>, m: string)
    requires j < |items| && Gather(items[..j], ItemContents) == Ok(fileSeen) && ItemMarkdown(items[j]) == Ok(m)
    ensures Gather(items[..j + 1], ItemContents) == Ok(fileSeen + [CleanMarkdown.Clean(m)])
  {
    GatherStep(items, j, ItemContents);
  }

  /** A file whose items were all read adds their contents. */
  lemma FileRead(files: seq<Value>, f: nat, seen: seq<string>, items: seq<Value>, fileSeen: seq<string>)
    requires f < |files| && AllContents(files[..f]) == Ok(seen) && FileItems(files[f]) == Ok(items)
    requires Gather(items, ItemContents) == Ok(fileSeen)
    ensures AllContents(files[..f + 1]) == Ok(seen + fileSeen)
  {
    GatherStep(files, f, FileContents);
  }

  /** The five keyword tests of the item loop, on content that has been cleaned. */
  method RouteContent(sections: map<SectionKey, seq<string>>, content: string) returns (routed: map<SectionKey, seq<string>>)
    requires forall k: SectionKey :: k in sections
    ensures forall k: SectionKey :: k in routed
    ensures routed[ProgramOverview] == sections[ProgramOverview] + (if RoutesTo(content, ProgramOverview) then [content] else [])
    ensures routed[Curriculum] == sections[Curriculum] + (if RoutesTo(content, Curriculum) then [content] else [])
    ensures routed[International] == sections[International] + (if RoutesTo(content, International) then [content] else [])
    ensures routed[Practical] == sections[Practical] + (if RoutesTo(content, Practical) then [content] else [])
    ensures routed[Admission] == sections[Admission] + (if RoutesTo(content, Admission) then [content] else [])
  {
    routed := sections;
    if Contains(content, ProgramName) {
      if HasKeyword(content, ProgramOverview) {
        routed := routed[ProgramOverview := routed[ProgramOverview] + [content]];
      }
      if HasKeyword(content, Curriculum) {
        routed := routed[Curriculum := routed[Curriculum] + [content]];
      }
      if HasKeyword(content, International) {
        routed := routed[International := routed[International] + [content]];
      }
      if HasKeyword(content, Practical) {
        routed := routed[Practical := routed[Practical] + [content]];
      }
      if HasKeyword(content, Admission) {
        routed := routed[Admission := routed[Admission] + [content]];
      }
    }
  }

  /** The five tests of the item loop extend exactly the sections the content routes to. */
  lemma RouteStep(before: map<SectionKey, seq<string>>, after: map<SectionKey, seq<string>>, cs: seq<string>, c: string)
    requires SectionsHold(before, cs)
    requires forall k: SectionKey :: k in after
    requires after[ProgramOverview] == before[ProgramOverview] + (if RoutesTo(c, ProgramOverview) then [c] else [])
    requires after[Curriculum] == before[Curriculum] + (if RoutesTo(c, Curriculum) then [c] else [])
    requires after[International] == before[International] + (if RoutesTo(c, International) then [c] else [])
    requires after[Practical] == before[Practical] + (if RoutesTo(c, Practical) then [c] else [])
    requires after[Admission] == before[Admission] + (if RoutesTo(c, Admission) then [c] else [])
    ensures SectionsHold(after, cs + [c])
  {
    forall k: SectionKey ensures after[k] == SectionContents(cs + [c], k) {
      SectionContentsSnoc(cs, c, k);
      match k
      case ProgramOverview =>
      case Curriculum =>
      case International =>
      case Practical =>
      case Admission =>
    }
  }

  /** One pass of the item loop's routing: the sections now also hold `content` wherever it belongs. */
  method AddContent(sections: map<SectionKey, seq<string>>, ghost cs: seq<string>, content: string)
    returns (routed: map<SectionKey, seq<string>>)
    requires SectionsHold(sections, cs)
    ensures SectionsHold(routed, cs + [content])
  {
    routed := RouteContent(sections, content);
    RouteStep(sections, routed, cs, content);
  }

  lemma SnocAssoc<A>(a: seq<A>, b: seq<A>, x: A)
    ensures a + b + [x] == a + (b + [x])
  {
  }
}
