/**
 * The stand-in vector-search service used by the test suite. `Query` answers
 * with an error for a non-string or blank query and otherwise with exactly
 * one canned result, chosen by the first keyword (in a fixed priority order)
 * that the lower-cased query contains. The service object itself is a
 * lazily created singleton.
 */
module MockChroma {
  import opened Text

  /** The argument of `query`: a string, or a value of any other type. */
  datatype QueryArg = StringQuery(text: string) | NonStringQuery

  datatype ResultMetadata = ResultMetadata(title: string, section: string, source: string)

  datatype SearchResult = SearchResult(document: string, metadata: ResultMetadata)

  /** The object `query` hands to `JSON.stringify`: `{ error }` or `{ results }`. */
  datatype Response = ErrorResponse(error: string) | ResultsResponse(results: seq<SearchResult>)

  const InvalidQueryType: string := "Invalid query type"
  const EmptyQuery: string := "Query text cannot be empty"

  const BusinessMathematicsResult: SearchResult := SearchResult(
    "Business Mathematics I (5 ECTS)\n" + "* Basic calculus\n" + "* Financial mathematics\n" + "* Statistics foundations",
    ResultMetadata("Course Descriptions", "Curriculum", "course_catalog"))

  const StudyAbroadResult: SearchResult := SearchResult(
    "Semester 6: Study Abroad\n" + "- International Studies (30 ECTS)\n"
    + "* Course selection at partner university\n" + "* Intercultural experience",
    ResultMetadata("International Opportunities", "Program Structure", "program_guide"))

  const BachelorThesisResult: SearchResult := SearchResult(
    "Bachelor Thesis (12 ECTS)\n" + "* Research project\n" + "* Academic writing\n" + "* Defense presentation",
    ResultMetadata("Final Phase", "Program Structure", "program_guide"))

  const ProgramOverviewResult: SearchResult := SearchResult(
    "The International Business program at Aalen University...",
    ResultMetadata("Program Overview", "General", "website"))

  /** A result whose metadata carries a title, a section and a source. */
  predicate HasFullMetadata(r: SearchResult) {
    r.metadata.title != [] && r.metadata.section != [] && r.metadata.source != []
  }

  class ChromaService {
    /** `process.cwd()` at construction time. */
    const baseDir: string

    constructor (cwd: string)
      ensures baseDir == cwd
    {
      baseDir := cwd;
    }

    /**
     * `query`: reads no field of the service. The answer is an error exactly
     * for a non-string or blank query; every other answer holds exactly one
     * result with complete metadata.
     */
    static function Query(q: QueryArg): (r: Response)
      ensures q.NonStringQuery? ==> r == ErrorResponse(InvalidQueryType)
      ensures q.StringQuery? && JsTrim(q.text) == [] ==> r == ErrorResponse(EmptyQuery)
      ensures r.ErrorResponse? <==> q.NonStringQuery? || JsTrim(q.text) == []
      ensures r.ResultsResponse? ==> |r.results| == 1 && HasFullMetadata(r.results[0])
    {
      if q.NonStringQuery? then ErrorResponse(InvalidQueryType)
      else if JsTrim(q.text) == [] then ErrorResponse(EmptyQuery)
      else
        var lower := ToLowerAscii(q.text);
        if Contains(lower, "business mathematics") then ResultsResponse([BusinessMathematicsResult])
        else if Contains(lower, "abroad") || Contains(lower, "international") then ResultsResponse([StudyAbroadResult])
        else if Contains(lower, "bachelor thesis") then ResultsResponse([BachelorThesisResult])
        else ResultsResponse([ProgramOverviewResult])
    }
  }

  /** The static field `ChromaService.instance`, which starts out unset. */
  class InstanceSlot {
    var instance: ChromaService?

    constructor ()
      ensures instance == null
    {
      instance := null;
    }

    /** `getInstance`: creates the service on the first call and returns that same object on every call. */
    method GetInstance(cwd: string) returns (s: ChromaService)
      modifies this
      ensures old(instance) != null ==> s == old(instance)
      ensures old(instance) == null ==> fresh(s) && s.baseDir == cwd
      ensures instance == s
    {
      if instance == null {
        instance := new ChromaService(cwd);
      }
      s := instance;
    }
  }

  /** Two calls to `getInstance`, wherever they come from, give the same object. */
  method GetInstanceTwice(slot: InstanceSlot, cwd1: string, cwd2: string) returns (s1: ChromaService, s2: ChromaService)
    modifies slot
    ensures s1 == s2 && slot.instance == s1
  {
    s1 := slot.GetInstance(cwd1);
    s2 := slot.GetInstance(cwd2);
  }

  /** A query that is not blank. */
  lemma NotBlank(text: string, i: int)
    requires 0 <= i < |text| && !IsJsWhitespace(text[i])
    ensures JsTrim(text) != []
  {
  }

  /** "business mathematics" in any letter case, anywhere in the query, selects the course-description result. */
  lemma BusinessMathematicsAnywhere(before: string, keyword: string, after: string)
    requires ToLowerAscii(keyword) == "business mathematics"
    ensures ChromaService.Query(StringQuery(before + keyword + after)) == ResultsResponse([BusinessMathematicsResult])
    ensures Contains(BusinessMathematicsResult.document, "Business Mathematics")
  {
    assert OccursAt(BusinessMathematicsResult.document, "Business Mathematics", 0);
    var q := before + keyword + after;
    assert LowerChar(keyword[0]) == 'b' by {
      assert ToLowerAscii(keyword)[0] == 'b';
    }
    assert q[|before|] == keyword[0];
    NotBlank(q, |before|);
    ToLowerAsciiAppend(before + keyword, after);
    ToLowerAsciiAppend(before, keyword);
    ContainsInfix(ToLowerAscii(before), "business mathematics", ToLowerAscii(after));
  }

  /** Without "business mathematics", a query mentioning "abroad" or "international" gets the study-abroad result. */
  lemma StudyAbroadBranch(text: string)
    requires JsTrim(text) != []
    requires !Contains(ToLowerAscii(text), "business mathematics")
    requires Contains(ToLowerAscii(text), "abroad") || Contains(ToLowerAscii(text), "international")
    ensures ChromaService.Query(StringQuery(text)) == ResultsResponse([StudyAbroadResult])
    ensures Contains(StudyAbroadResult.document, "Study Abroad")
  {
    StudyAbroadMentioned();
  }

  lemma StudyAbroadMentioned()
    ensures Contains(StudyAbroadResult.document, "Study Abroad")
  {
    assert OccursAt(StudyAbroadResult.document, "Study Abroad", 12);
  }

  /** With neither earlier keyword, a query mentioning "bachelor thesis" gets the thesis result, which speaks of ECTS. */
  lemma BachelorThesisBranch(text: string)
    requires JsTrim(text) != []
    requires !Contains(ToLowerAscii(text), "business mathematics")
    requires !Contains(ToLowerAscii(text), "abroad") && !Contains(ToLowerAscii(text), "international")
    requires Contains(ToLowerAscii(text), "bachelor thesis")
    ensures ChromaService.Query(StringQuery(text)) == ResultsResponse([BachelorThesisResult])
    ensures Contains(BachelorThesisResult.document, "ECTS")
  {
    ThesisMentionsEcts();
  }

  lemma ThesisMentionsEcts()
    ensures Contains(BachelorThesisResult.document, "ECTS")
  {
    assert OccursAt(BachelorThesisResult.document, "ECTS", 20);
  }

  /** Any other non-blank query gets the program overview. */
  lemma DefaultBranch(text: string)
    requires JsTrim(text) != []
    requires !Contains(ToLowerAscii(text), "business mathematics")
    requires !Contains(ToLowerAscii(text), "abroad") && !Contains(ToLowerAscii(text), "international")
    requires !Contains(ToLowerAscii(text), "bachelor thesis")
    ensures ChromaService.Query(StringQuery(text)) == ResultsResponse([ProgramOverviewResult])
    ensures ProgramOverviewResult.metadata.title == "Program Overview"
  {
  }

  /** The empty query of the test suite is answered with the empty-query error. */
  lemma EmptyQueryRejected()
    ensures ChromaService.Query(StringQuery("")) == ErrorResponse(EmptyQuery)
  {
  }
}
