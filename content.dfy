/**
 * The content script's `GapDetector`: the page extractor, the keyword classifier, the
 * weighted-checks scorer (strategy A) with its suggestions, the validator of an analysis
 * result, and `saveAnalysis`, which appends a result to the two bounded logs in storage.
 */
module Content {
  import opened Wrappers
  import opened JsText
  import opened JsValue
  import opened Storage

  // ---------------------------------------------------------------- templates and keywords

  datatype ArticleType = University | MunicipalCouncil | General

  /** A gold-standard template: the sections, infobox entities and citation count it expects. */
  datatype Template = Template(requiredSections: seq<string>, requiredEntities: seq<string>, minCitations: int)

  const UniversityTemplate := Template(
    ["History", "Academic programs", "Notable alumni", "Research",
     "Campus", "Administration", "Student life", "References"],
    ["founded", "location", "type", "students"],
    10)

  const MunicipalCouncilTemplate := Template(
    ["History", "Geography", "Demographics", "Economy",
     "Administration", "Education", "Healthcare", "References"],
    ["population", "area", "established", "mayor"],
    8)

  /** `goldStandardTemplates[articleType]`: the general type has no template. */
  function TemplateFor(t: ArticleType): Option<Template> {
    match t
    case University => Some(UniversityTemplate)
    case MunicipalCouncil => Some(MunicipalCouncilTemplate)
    case General => None
  }

  const ZambianKeywords: seq<string> := [
    "zambia", "zambian", "lusaka", "copperbelt", "ndola", "kitwe",
    "livingstone", "chipata", "kasama", "mongu", "solwezi", "kabwe"]

  const UniversityKeywords: seq<string> := ["university", "college", "institute", "school", "academy"]

  const MunicipalKeywords: seq<string> := ["council", "municipality", "district", "city", "town"]

  // ---------------------------------------------------------------- the page and its extraction

  /** What `extractPageContent` reads from the rendered page. */
  datatype Document = Document(
    title: string,                        // document.title
    headings: seq<string>,                // text of every h1..h6 element, in document order
    body: Option<string>,                 // text of #mw-content-text, when the element exists
    citationMarkers: nat,                 // number of elements matching `.reference, .cite`
    infobox: Option<seq<seq<string>>>)    // the first `.infobox`: per table row, the texts of its cells

  /** The content record the analysis works on. */
  datatype PageContent = PageContent(
    title: string,
    sections: seq<string>,
    text: string,
    citations: nat,
    infobox: map<string, string>)

  /** A row's key: the first cell, trimmed and lower-cased. */
  function RowKey(cells: seq<string>): string
    requires |cells| >= 1
  {
    ToLower(Trim(cells[0]))
  }

  /** A row's value: the second cell, trimmed. */
  function RowValue(cells: seq<string>): string
    requires |cells| >= 2
  {
    Trim(cells[1])
  }

  predicate DefinesKey(cells: seq<string>, k: string) {
    |cells| >= 2 && RowKey(cells) == k
  }

  /** The infobox map built row by row: rows with fewer than two cells are skipped, later keys overwrite. */
  function InfoboxOf(rows: seq<seq<string>>): map<string, string> {
    if rows == [] then map[]
    else
      var m := InfoboxOf(rows[..|rows| - 1]);
      var cells := rows[|rows| - 1];
      if |cells| >= 2 then m[RowKey(cells) := RowValue(cells)] else m
  }

  /** A key is in the infobox map exactly when some row of two or more cells has it. */
  lemma {:induction false} InfoboxKeys(rows: seq<seq<string>>, k: string)
    ensures k in InfoboxOf(rows) <==> exists i :: 0 <= i < |rows| && DefinesKey(rows[i], k)
  {
    if rows != [] {
      var front := rows[..|rows| - 1];
      var last := rows[|rows| - 1];
      InfoboxKeys(front, k);
      assert k in InfoboxOf(rows) <==> k in InfoboxOf(front) || DefinesKey(last, k);
      if k in InfoboxOf(front) {
        var i :| 0 <= i < |front| && DefinesKey(front[i], k);
        assert rows[i] == front[i];
      }
      if i :| 0 <= i < |rows| && DefinesKey(rows[i], k) {
        if i < |front| {
          assert front[i] == rows[i];
        }
      }
    }
  }

  /** Of several rows with the same key, the last one gives the value. */
  lemma {:induction false} InfoboxLastRowWins(rows: seq<seq<string>>, k: string, i: nat)
    requires i < |rows| && DefinesKey(rows[i], k)
    requires forall j :: i < j < |rows| ==> !DefinesKey(rows[j], k)
    ensures k in InfoboxOf(rows) && InfoboxOf(rows)[k] == RowValue(rows[i])
  {
    var front := rows[..|rows| - 1];
    if i < |rows| - 1 {
      assert forall j :: i < j < |front| ==> front[j] == rows[j];
      InfoboxLastRowWins(front, k, i);
    }
  }

  /** `extractPageContent`: trimmed headings, lower-cased body text, citation count, infobox map. */
  method ExtractPageContent(doc: Document) returns (c: PageContent)
    ensures c.title == doc.title
    ensures |c.sections| == |doc.headings|
    ensures forall i :: 0 <= i < |doc.headings| ==> c.sections[i] == Trim(doc.headings[i])
    ensures c.text == (if doc.body.Some? then ToLower(doc.body.value) else "")
    ensures c.citations == doc.citationMarkers
    ensures c.infobox == (if doc.infobox.Some? then InfoboxOf(doc.infobox.value) else map[])
  {
    var sections := TrimHeadings(doc.headings);
    var text := "";
    if doc.body.Some? {
      text := ToLower(doc.body.value);
    }
    var infobox: map<string, string> := map[];
    if doc.infobox.Some? {
      infobox := BuildInfobox(doc.infobox.value);
    }
    c := PageContent(doc.title, sections, text, doc.citationMarkers, infobox);
  }

  /** The headings loop of `extractPageContent`: every heading's text, trimmed, in page order. */
  method TrimHeadings(headings: seq<string>) returns (sections: seq<string>)
    ensures |sections| == |headings|
    ensures forall i :: 0 <= i < |headings| ==> sections[i] == Trim(headings[i])
  {
    sections := [];
    var i := 0;
    while i < |headings|
      invariant 0 <= i <= |headings|
      invariant |sections| == i
      invariant forall k :: 0 <= k < i ==> sections[k] == Trim(headings[k])
    {
      sections := sections + [Trim(headings[i])];
      i := i + 1;
    }
  }

  /** The infobox rows loop of `extractPageContent`: rows of two or more cells set their key. */
  method BuildInfobox(rows: seq<seq<string>>) returns (infobox: map<string, string>)
    ensures infobox == InfoboxOf(rows)
  {
    infobox := map[];
    var j := 0;
    while j < |rows|
      invariant 0 <= j <= |rows|
      invariant infobox == InfoboxOf(rows[..j])
    {
      var cells := rows[j];
      if |cells| >= 2 {
        infobox := infobox[RowKey(cells) := RowValue(cells)];
      }
      assert rows[..j + 1][..j] == rows[..j];
      j := j + 1;
    }
    assert rows[..j] == rows;
  }

  // ---------------------------------------------------------------- classification

  /** `keywords.some(kw => title.includes(kw) || text.includes(kw))` */
  predicate AnyKeyword(keywords: seq<string>, title: string, text: string)
    ensures AnyKeyword(keywords, title, text) <==>
      exists i :: 0 <= i < |keywords| && (Includes(title, keywords[i]) || Includes(text, keywords[i]))
  {
    if keywords == [] then false
    else
      Includes(title, keywords[0]) || Includes(text, keywords[0])
      || (assert forall i :: 1 <= i < |keywords| ==> keywords[i] == keywords[1..][i - 1];
          AnyKeyword(keywords[1..], title, text))
  }

  /** Whether keyword `kw` occurs in the lower-cased title or the lower-cased text. */
  predicate Mentions(c: PageContent, kw: string) {
    Includes(ToLower(c.title), kw) || Includes(ToLower(c.text), kw)
  }

  /** `detectArticleType`: university keywords are tried first, then municipal ones. */
  function DetectArticleType(c: PageContent): (t: ArticleType)
    ensures t == University <==> exists i :: 0 <= i < |UniversityKeywords| && Mentions(c, UniversityKeywords[i])
    ensures t == MunicipalCouncil <==>
      && (forall i :: 0 <= i < |UniversityKeywords| ==> !Mentions(c, UniversityKeywords[i]))
      && (exists i :: 0 <= i < |MunicipalKeywords| && Mentions(c, MunicipalKeywords[i]))
    ensures t == General <==>
      && (forall i :: 0 <= i < |UniversityKeywords| ==> !Mentions(c, UniversityKeywords[i]))
      && (forall i :: 0 <= i < |MunicipalKeywords| ==> !Mentions(c, MunicipalKeywords[i]))
  {
    var title := ToLower(c.title);
    var text := ToLower(c.text);
    if AnyKeyword(UniversityKeywords, title, text) then University
    else if AnyKeyword(MunicipalKeywords, title, text) then MunicipalCouncil
    else General
  }

  /** `isRelevantToZambia`: some Zambian keyword occurs in the lower-cased text. */
  function IsRelevantToZambia(c: PageContent): (b: bool)
    ensures b <==> exists i :: 0 <= i < |ZambianKeywords| && Includes(ToLower(c.text), ZambianKeywords[i])
  {
    var text := ToLower(c.text);
    AnyKeyword(ZambianKeywords, text, text)
  }

  // ---------------------------------------------------------------- strategy A: weighted checks

  datatype GapKind = MissingSection | MissingEntity | InsufficientCitations
  datatype Severity = High | Medium | Low

  /** A gap as `performAnalysis` builds it: `{type, content, severity}`. */
  datatype Gap = Gap(kind: GapKind, content: string, severity: Severity)

  /** `{score, gaps, suggestions}` */
  datatype Analysis = Analysis(score: int, gaps: seq<Gap>, suggestions: seq<string>)

  const UnrecognizedTypeSuggestion := "Article type not recognized for detailed analysis"

  /** Some heading contains `section`, both lower-cased. */
  predicate HasSection(headings: seq<string>, section: string) {
    exists i :: 0 <= i < |headings| && Includes(ToLower(headings[i]), ToLower(section))
  }

  /** Some infobox key contains `entity`. */
  predicate HasEntity(infobox: map<string, string>, entity: string) {
    exists key :: key in infobox && Includes(key, entity)
  }

  /** The required sections no heading covers, in template order. */
  function MissingSections(required: seq<string>, headings: seq<string>): (r: seq<string>)
    ensures |r| <= |required|
  {
    if required == [] then []
    else (if HasSection(headings, required[0]) then [] else [required[0]])
         + MissingSections(required[1..], headings)
  }

  /** A section is reported missing exactly when it is required and no heading covers it. */
  lemma {:induction false} MissingSectionsExactly(required: seq<string>, headings: seq<string>)
    ensures forall s :: s in MissingSections(required, headings) <==> s in required && !HasSection(headings, s)
  {
    if required != [] {
      MissingSectionsExactly(required[1..], headings);
      assert forall s :: s in required <==> s == required[0] || s in required[1..];
    }
  }

  /** The required entities no infobox key covers, in template order. */
  function MissingEntities(required: seq<string>, infobox: map<string, string>): (r: seq<string>)
    ensures |r| <= |required|
  {
    if required == [] then []
    else (if HasEntity(infobox, required[0]) then [] else [required[0]])
         + MissingEntities(required[1..], infobox)
  }

  /** An entity is reported missing exactly when it is required and no infobox key contains it. */
  lemma {:induction false} MissingEntitiesExactly(required: seq<string>, infobox: map<string, string>)
    ensures forall e :: e in MissingEntities(required, infobox) <==> e in required && !HasEntity(infobox, e)
  {
    if required != [] {
      MissingEntitiesExactly(required[1..], infobox);
      assert forall e :: e in required <==> e == required[0] || e in required[1..];
    }
  }

  const CitationMessageHead := "Only "
  const CitationMessageMiddle := " citations found, minimum "
  const CitationMessageTail := " recommended"

  /** The content of the citation gap. */
  function CitationMessage(citations: nat, minCitations: int): string {
    CitationMessageHead + NatToString(citations) + CitationMessageMiddle + IntToString(minCitations) + CitationMessageTail
  }

  function SectionGaps(missing: seq<string>): seq<Gap> {
    seq(|missing|, i requires 0 <= i < |missing| => Gap(MissingSection, missing[i], High))
  }

  function EntityGaps(missing: seq<string>): seq<Gap> {
    seq(|missing|, i requires 0 <= i < |missing| => Gap(MissingEntity, missing[i], Medium))
  }

  function CitationGaps(citations: nat, minCitations: int): seq<Gap> {
    if citations < minCitations
    then [Gap(InsufficientCitations, CitationMessage(citations, minCitations), High)]
    else []
  }

  /** The gaps `performAnalysis` pushes: missing sections, then missing entities, then citations. */
  function DetectGaps(c: PageContent, t: Template): (r: seq<Gap>)
    ensures |r| <= TotalChecks(t)
  {
    SectionGaps(MissingSections(t.requiredSections, c.sections))
    + EntityGaps(MissingEntities(t.requiredEntities, c.infobox))
    + CitationGaps(c.citations, t.minCitations)
  }

  function TotalChecks(t: Template): nat {
    |t.requiredSections| + |t.requiredEntities| + 1
  }

  /** `Math.round((passed / total) * 100)` */
  function CompletenessScore(passed: int, total: int): int
    requires total > 0
  {
    Round((passed as real / total as real) * 100.0)
  }

  /**
   * The gaps come in three blocks, with a citation gap last exactly when there are too few
   * citations; `SectionGapsFirst` and `EntityGapsNext` give the first two blocks.
   */
  lemma GapCount(c: PageContent, t: Template)
    ensures var gaps := DetectGaps(c, t);
            && |gaps| == |MissingSections(t.requiredSections, c.sections)|
                         + |MissingEntities(t.requiredEntities, c.infobox)|
                         + (if c.citations < t.minCitations then 1 else 0)
            && (c.citations < t.minCitations ==>
                  gaps[|gaps| - 1] == Gap(InsufficientCitations, CitationMessage(c.citations, t.minCitations), High))
  {
  }

  /** The gaps open with one high-severity missing-section gap per uncovered section, in template order. */
  lemma SectionGapsFirst(c: PageContent, t: Template)
    ensures var ms := MissingSections(t.requiredSections, c.sections);
            var gaps := DetectGaps(c, t);
            && |ms| <= |gaps|
            && forall i :: 0 <= i < |ms| ==> gaps[i] == Gap(MissingSection, ms[i], High)
  {
  }

  /** Then come one medium-severity missing-entity gap per uncovered entity, in template order. */
  lemma EntityGapsNext(c: PageContent, t: Template)
    ensures var ms := MissingSections(t.requiredSections, c.sections);
            var me := MissingEntities(t.requiredEntities, c.infobox);
            var gaps := DetectGaps(c, t);
            && |ms| + |me| <= |gaps|
            && forall i :: 0 <= i < |me| ==> gaps[|ms| + i] == Gap(MissingEntity, me[i], Medium)
  {
  }

  /** The score lies in [0, 100]; with no gaps it is 100. */
  lemma {:induction false} ScoreBounds(passed: int, total: int)
    requires 0 <= passed <= total && total > 0
    ensures 0 <= CompletenessScore(passed, total) <= 100
    ensures passed == total ==> CompletenessScore(passed, total) == 100
  {
    Ratio(passed, total);
  }

  /**
   * One gap or more keeps the score below 100 as long as there are fewer than 200 checks;
   * from 200 checks on a single gap rounds up to 100.
   */
  lemma {:induction false} ScoreBelowFullWithGaps(passed: int, total: int)
    requires 0 <= passed < total < 200
    ensures CompletenessScore(passed, total) < 100
  {
    var ratio := passed as real / total as real;
    assert ratio * (total as real) == passed as real;
    assert ratio <= (total as real - 1.0) / total as real by {
      assert passed as real <= total as real - 1.0;
    }
    assert 1.0 / total as real > 1.0 / 200.0;
    assert (total as real - 1.0) / total as real == 1.0 - 1.0 / total as real;
  }

  /** With fewer than 200 checks the score lies in [0, 100] and is 100 exactly when no check failed. */
  lemma ScoreFullIffNoGaps(gapCount: nat, total: nat)
    requires gapCount <= total && 0 < total < 200
    ensures 0 <= CompletenessScore(total - gapCount, total) <= 100
    ensures CompletenessScore(total - gapCount, total) == 100 <==> gapCount == 0
  {
    ScoreBounds(total - gapCount, total);
    if gapCount > 0 {
      ScoreBelowFullWithGaps(total - gapCount, total);
    }
  }

  /** The three suggestions per gap kind. */
  const SectionAdviceHead := "Add a '"
  const SectionAdviceTail := "' section to improve article completeness"
  const EntityAdviceHead := "Include '"
  const EntityAdviceTail := "' information in the infobox"
  const CitationAdvice := "Add more reliable sources and citations"

  function SuggestionFor(g: Gap): string {
    match g.kind
    case MissingSection => SectionAdviceHead + g.content + SectionAdviceTail
    case MissingEntity => EntityAdviceHead + g.content + EntityAdviceTail
    case InsufficientCitations => CitationAdvice
  }

  const PartnershipsAdvice := "Consider adding information about academic partnerships"
  const FacultyAdvice := "Include notable faculty members if available"
  const GovernmentAdvice := "Add information about local government structure"
  const DevelopmentAdvice := "Include economic development initiatives"

  /** The two fixed lines `generateSuggestions` appends per article type. */
  function TypeAdvice(t: ArticleType): seq<string> {
    match t
    case University => [PartnershipsAdvice, FacultyAdvice]
    case MunicipalCouncil => [GovernmentAdvice, DevelopmentAdvice]
    case General => []
  }

  /** `generateSuggestions`: one suggestion per gap in gap order, then the article type's advice. */
  method GenerateSuggestions(gaps: seq<Gap>, articleType: ArticleType) returns (suggestions: seq<string>)
    ensures |suggestions| == |gaps| + |TypeAdvice(articleType)|
    ensures forall i :: 0 <= i < |gaps| ==> suggestions[i] == SuggestionFor(gaps[i])
    ensures suggestions[|gaps|..] == TypeAdvice(articleType)
  {
    var perGap := GapSuggestions(gaps);
    suggestions := perGap + TypeAdvice(articleType);
    assert suggestions[..|gaps|] == perGap;
  }

  /** The `forEach` of `generateSuggestions`: one suggestion per gap, in gap order. */
  method GapSuggestions(gaps: seq<Gap>) returns (suggestions: seq<string>)
    ensures |suggestions| == |gaps|
    ensures forall i :: 0 <= i < |gaps| ==> suggestions[i] == SuggestionFor(gaps[i])
  {
    suggestions := [];
    var i := 0;
    while i < |gaps|
      invariant 0 <= i <= |gaps|
      invariant suggestions == MapSeq(SuggestionFor, gaps[..i])
    {
      assert gaps[..i + 1][..i] == gaps[..i];
      suggestions := suggestions + [SuggestionFor(gaps[i])];
      i := i + 1;
    }
    assert gaps[..i] == gaps;
  }

  /** Both templates name every section and entity and make thirteen checks. */
  lemma TemplatesWellFormed(t: ArticleType)
    ensures TemplateFor(t).Some? ==> NonEmptyNames(TemplateFor(t).value) && TotalChecks(TemplateFor(t).value) == 13
  {
  }

  /**
   * `performAnalysis` once a template is found: the detected gaps, the share of passed checks
   * as a percentage, and one suggestion per gap followed by the type's advice.
   */
  method AnalyzeWithTemplate(c: PageContent, t: Template, articleType: ArticleType) returns (a: Analysis)
    requires NonEmptyNames(t) && TotalChecks(t) < 200
    ensures ValidateAnalysis(AnalysisObjectOf(a)) == Pass
    ensures a.gaps == DetectGaps(c, t)
    ensures a.score == CompletenessScore(TotalChecks(t) - |a.gaps|, TotalChecks(t))
    ensures 0 <= a.score <= 100
    ensures a.score == 100 <==> a.gaps == []
    ensures |a.suggestions| == |a.gaps| + |TypeAdvice(articleType)|
    ensures forall i :: 0 <= i < |a.gaps| ==> a.suggestions[i] == SuggestionFor(a.gaps[i])
    ensures a.suggestions[|a.gaps|..] == TypeAdvice(articleType)
  {
    var gaps := DetectGaps(c, t);
    var total := TotalChecks(t);
    var passed := total - |gaps|;
    var score := CompletenessScore(passed, total);
    ScoreFullIffNoGaps(|gaps|, total);
    var suggestions := GenerateSuggestions(gaps, articleType);
    a := Analysis(score, gaps, suggestions);
    DetectedAnalysisValidates(c, t, score, suggestions);
  }

  /**
   * `performAnalysis`: without a template a fixed result; otherwise the detected gaps, the
   * share of passed checks as a percentage, and one suggestion per gap plus the type's two lines.
   */
  method PerformAnalysis(c: PageContent, articleType: ArticleType) returns (a: Analysis)
    ensures ValidateAnalysis(AnalysisObjectOf(a)) == Pass
    ensures TemplateFor(articleType).None? ==> a == Analysis(50, [], [UnrecognizedTypeSuggestion])
    ensures TemplateFor(articleType).Some? ==>
      var t := TemplateFor(articleType).value;
      && a.gaps == DetectGaps(c, t)
      && a.score == CompletenessScore(TotalChecks(t) - |a.gaps|, TotalChecks(t))
      && 0 <= a.score <= 100
      && (a.score == 100 <==> a.gaps == [])
      && |a.suggestions| == |a.gaps| + 2
      && (forall i :: 0 <= i < |a.gaps| ==> a.suggestions[i] == SuggestionFor(a.gaps[i]))
      && a.suggestions[|a.gaps|..] == TypeAdvice(articleType)
  {
    var template := TemplateFor(articleType);
    if template.None? {
      a := Analysis(50, [], [UnrecognizedTypeSuggestion]);
      TypedAnalysisValidates(a);
      return;
    }
    TemplatesWellFormed(articleType);
    a := AnalyzeWithTemplate(c, template.value, articleType);
  }

  // ---------------------------------------------------------------- validation

  /** An analysis object as it reaches `validateAnalysis`; `gaps == None` is any non-array. */
  datatype RawAnalysis = NotAnObject | AnalysisObject(score: Option<Value>, gaps: Option<seq<RawGap>>)

  /** The record shown when the hosted model's answer is not JSON: it has no numeric score. */
  function UnparsedModelAnswer(text: string): RawAnalysis {
    AnalysisObject(Some(Str("N/A")), Some([]))
  }

  predicate ScoreInRange(score: Option<Value>) {
    score.Some? && score.value.Num? && 0.0 <= score.value.x <= 100.0
  }

  predicate GapFieldsPresent(g: RawGap) {
    TruthyField(g.kind) && TruthyField(g.content) && TruthyField(g.severity)
  }

  predicate KnownSeverity(g: RawGap) {
    g.severity == Some(Str("high")) || g.severity == Some(Str("medium")) || g.severity == Some(Str("low"))
  }

  predicate WellFormedGap(g: RawGap) {
    GapFieldsPresent(g) && KnownSeverity(g)
  }

  predicate IsValidAnalysis(a: RawAnalysis) {
    && a.AnalysisObject?
    && ScoreInRange(a.score)
    && a.gaps.Some?
    && forall i :: 0 <= i < |a.gaps.value| ==> WellFormedGap(a.gaps.value[i])
  }

  /** The error thrown for a malformed gap at index `i`. */
  function GapError(g: RawGap, i: nat): Outcome<string> {
    if !GapFieldsPresent(g) then Fail("Invalid gap object at index " + NatToString(i))
    else Fail("Invalid severity value at index " + NatToString(i))
  }

  /** The `forEach` over the gaps from index `from` on: it throws at the first malformed gap. */
  function CheckGaps(gaps: seq<RawGap>, from: nat): (r: Outcome<string>)
    requires from <= |gaps|
    ensures r == Pass <==> forall i :: from <= i < |gaps| ==> WellFormedGap(gaps[i])
    ensures forall i :: from <= i < |gaps| && !WellFormedGap(gaps[i])
                        && (forall j :: from <= j < i ==> WellFormedGap(gaps[j]))
                        ==> r == GapError(gaps[i], i)
    decreases |gaps| - from
  {
    if from == |gaps| then Pass
    else if !WellFormedGap(gaps[from]) then GapError(gaps[from], from)
    else CheckGaps(gaps, from + 1)
  }

  /** `validateAnalysis`: the checks in source order; the first that fails gives the error. */
  function ValidateAnalysis(a: RawAnalysis): (r: Outcome<string>)
    ensures r == Pass <==> IsValidAnalysis(a)
    ensures a.NotAnObject? ==> r == Fail("Invalid analysis object")
    ensures a.AnalysisObject? && !ScoreInRange(a.score) ==> r == Fail("Invalid score value")
    ensures a.AnalysisObject? && ScoreInRange(a.score) && a.gaps.None? ==> r == Fail("Gaps must be an array")
  {
    if a.NotAnObject? then Fail("Invalid analysis object")
    else if !ScoreInRange(a.score) then Fail("Invalid score value")
    else if a.gaps.None? then Fail("Gaps must be an array")
    else CheckGaps(a.gaps.value, 0)
  }

  /** A typed gap as the plain object `performAnalysis` returns. */
  function GapObject(g: Gap): RawGap {
    var kind := match g.kind
      case MissingSection => "missing_section"
      case MissingEntity => "missing_entity"
      case InsufficientCitations => "insufficient_citations";
    var severity := match g.severity case High => "high" case Medium => "medium" case Low => "low";
    RawGap(Some(Str(kind)), Some(Str(g.content)), Some(Str(severity)))
  }

  function AnalysisObjectOf(a: Analysis): RawAnalysis {
    AnalysisObject(Some(Num(a.score as real)), Some(seq(|a.gaps|, i requires 0 <= i < |a.gaps| => GapObject(a.gaps[i]))))
  }

  /** No template names the empty section or the empty entity. */
  predicate NonEmptyNames(t: Template) {
    "" !in t.requiredSections && "" !in t.requiredEntities
  }

  /** Every gap the weighted-checks scorer reports names something. */
  lemma GapsHaveContent(c: PageContent, t: Template)
    requires NonEmptyNames(t)
    ensures forall i :: 0 <= i < |DetectGaps(c, t)| ==> DetectGaps(c, t)[i].content != ""
  {
    var ms := MissingSections(t.requiredSections, c.sections);
    var me := MissingEntities(t.requiredEntities, c.infobox);
    var sections, entities := SectionGaps(ms), EntityGaps(me);
    var gaps := DetectGaps(c, t);
    MissingSectionsExactly(t.requiredSections, c.sections);
    MissingEntitiesExactly(t.requiredEntities, c.infobox);
    assert gaps == sections + entities + CitationGaps(c.citations, t.minCitations);
    forall i | 0 <= i < |gaps|
      ensures gaps[i].content != ""
    {
      if i < |sections| {
        assert gaps[i] == sections[i];
        assert ms[i] in ms;
      } else if i < |sections| + |entities| {
        assert gaps[i] == entities[i - |sections|];
        assert me[i - |sections|] in me;
      } else {
        assert gaps[i].content == CitationMessage(c.citations, t.minCitations);
      }
    }
  }

  /** A named typed gap becomes a well-formed gap object. */
  lemma GapObjectWellFormed(g: Gap)
    requires g.content != ""
    ensures WellFormedGap(GapObject(g))
  {
    var o := GapObject(g);
    assert TruthyField(o.content);
    match g.severity {
      case High => assert o.severity == Some(Str("high"));
      case Medium => assert o.severity == Some(Str("medium"));
      case Low => assert o.severity == Some(Str("low"));
    }
    match g.kind {
      case MissingSection => assert o.kind == Some(Str("missing_section"));
      case MissingEntity => assert o.kind == Some(Str("missing_entity"));
      case InsufficientCitations => assert o.kind == Some(Str("insufficient_citations"));
    }
  }

  /** A typed analysis with a score in [0, 100] and named gaps passes `validateAnalysis`. */
  lemma {:induction false} TypedAnalysisValidates(a: Analysis)
    requires 0 <= a.score <= 100
    requires forall i :: 0 <= i < |a.gaps| ==> a.gaps[i].content != ""
    ensures ValidateAnalysis(AnalysisObjectOf(a)) == Pass
  {
    var raw := AnalysisObjectOf(a);
    forall i | 0 <= i < |a.gaps|
      ensures WellFormedGap(raw.gaps.value[i])
    {
      GapObjectWellFormed(a.gaps[i]);
    }
  }

  /** Whatever its suggestions, an analysis of the detected gaps with a score in [0, 100] passes validation. */
  lemma DetectedAnalysisValidates(c: PageContent, t: Template, score: int, suggestions: seq<string>)
    requires NonEmptyNames(t) && 0 <= score <= 100
    ensures ValidateAnalysis(AnalysisObjectOf(Analysis(score, DetectGaps(c, t), suggestions))) == Pass
  {
    GapsHaveContent(c, t);
    TypedAnalysisValidates(Analysis(score, DetectGaps(c, t), suggestions));
  }

  /** The hosted-model fallback record never passes validation. */
  lemma UnparsedAnswerRejected(text: string)
    ensures ValidateAnalysis(UnparsedModelAnswer(text)) == Fail("Invalid score value")
  {
  }

  // ---------------------------------------------------------------- saving

  const MaxDetectedGaps := 3

  /**
   * The bound the history loop `while (analysisHistory.length > maxHistoryItems) shift()`
   * compares with, for `maxHistoryItems = settings?.maxHistoryItems || 100`;
   * `None`: the bound is a non-numeric string and the comparison is always false.
   */
  function HistoryBound(settings: Option<Object>): Option<real> {
    var v := OrElse(if settings.Some? then Field(settings.value, "maxHistoryItems") else None, Num(100.0));
    match v
    case Num(x) => Some(x)
    case Bool(_) => Some(1.0)
    case Str(_) => None
    case Null => Some(100.0)
  }

  /** A whole number exceeds a bound exactly when it exceeds the bound's floor. */
  lemma AboveFloor(n: int, b: real)
    ensures n as real > b <==> n > b.Floor
  {
  }

  /**
   * What `while (s.length > bound) s.shift()` leaves: the newest entries, at most `bound` of
   * them, and only the excess goes.
   */
  function ShiftToBound<T>(s: seq<T>, bound: Option<real>): (r: seq<T>)
    requires bound.Some? ==> bound.value >= 0.0
    ensures |r| <= |s| && r == s[|s| - |r|..]
    ensures bound.None? ==> r == s
    ensures bound.Some? ==> |r| as real <= bound.value
    ensures bound.Some? && |s| as real <= bound.value ==> r == s
    ensures bound.Some? && |s| as real > bound.value ==> |r| == bound.value.Floor
    ensures bound.Some? && |s| > 0 && bound.value >= 1.0 ==> r != [] && r[|r| - 1] == s[|s| - 1]
  {
    if bound.None? then s
    else
      AboveFloor(|s|, bound.value);
      if |s| <= bound.value.Floor then s else s[|s| - bound.value.Floor..]
  }

  /** With a numeric bound, the cut log is the newest `⌊bound⌋` entries. */
  lemma ShiftKeepsNewest<T>(s: seq<T>, bound: real)
    requires bound >= 0.0
    ensures ShiftToBound(s, Some(bound)) == Newest(s, bound.Floor as nat)
  {
    AboveFloor(|s|, bound);
  }

  /** The `shift` loop itself: the oldest entry goes while there are more than `bound`. */
  method DropOldest<T>(s: seq<T>, bound: Option<real>) returns (r: seq<T>)
    requires bound.Some? ==> bound.value >= 0.0
    ensures r == ShiftToBound(s, bound)
  {
    r := s;
    ghost var floor := if bound.Some? then bound.value.Floor else |s|;
    while bound.Some? && |r| as real > bound.value
      invariant |r| <= |s| && r == s[|s| - |r|..]
      invariant |r| == |s| || |r| >= floor
      decreases |r|
    {
      AboveFloor(|r|, bound.value);
      r := r[1..];
    }
    if bound.Some? {
      AboveFloor(|r|, bound.value);
    }
  }

  /** The record `saveAnalysis` stores for an analysis that passed validation. */
  function EntryFor(pageTitle: string, url: string, clock: Clock, a: RawAnalysis, settings: Option<Object>): HistoryEntry
    requires IsValidAnalysis(a)
  {
    var offline := if settings.Some? then Field(settings.value, "offlineMode") else None;
    HistoryEntry(pageTitle, url, clock.iso, a.gaps.value, a.score.value.x, OrElse(offline, Bool(false)))
  }

  predicate EveryEntryHasGaps(entries: seq<HistoryEntry>) {
    forall i :: 0 <= i < |entries| ==> |entries[i].gaps| > 0
  }

  predicate ScoresInRange(entries: seq<HistoryEntry>) {
    forall i :: 0 <= i < |entries| ==> 0.0 <= entries[i].score <= 100.0
  }

  /** The store once the entry has joined both logs and each log has been cut to its bound. */
  function Appended(store: Store, entry: HistoryEntry): Store
    requires HistoryBound(store.settings).Some? ==> HistoryBound(store.settings).value >= 0.0
  {
    var oldGaps := store.detectedGaps.GetOr([]);
    store.(detectedGaps := Some(if |entry.gaps| > 0
                                then ShiftToBound(oldGaps + [entry], Some(MaxDetectedGaps as real))
                                else oldGaps),
           analysisHistory := Some(ShiftToBound(store.analysisHistory.GetOr([]) + [entry], HistoryBound(store.settings))))
  }

  /** Cutting the detected-gaps log keeps "every entry has a gap" when the new entry has one. */
  lemma GapLogKeepsGaps(log: seq<HistoryEntry>, entry: HistoryEntry)
    requires EveryEntryHasGaps(log) && |entry.gaps| > 0
    ensures EveryEntryHasGaps(ShiftToBound(log + [entry], Some(MaxDetectedGaps as real)))
  {
    var s := log + [entry];
    assert EveryEntryHasGaps(s) by {
      forall i | 0 <= i < |s|
        ensures |s[i].gaps| > 0
      {
        if i < |log| {
          assert s[i] == log[i];
        }
      }
    }
    var r := ShiftToBound(s, Some(MaxDetectedGaps as real));
    forall i | 0 <= i < |r|
      ensures |r[i].gaps| > 0
    {
      assert r[i] == s[|s| - |r| + i];
    }
  }

  /** Cutting the history keeps every score in [0, 100] when the new entry's score is. */
  lemma HistoryKeepsScores(log: seq<HistoryEntry>, entry: HistoryEntry, bound: Option<real>)
    requires bound.Some? ==> bound.value >= 0.0
    requires ScoresInRange(log) && 0.0 <= entry.score <= 100.0
    ensures ScoresInRange(ShiftToBound(log + [entry], bound))
  {
    var s := log + [entry];
    assert ScoresInRange(s) by {
      forall i | 0 <= i < |s|
        ensures 0.0 <= s[i].score <= 100.0
      {
        if i < |log| {
          assert s[i] == log[i];
        }
      }
    }
    var r := ShiftToBound(s, bound);
    if bound.Some? {
      forall i | 0 <= i < |r|
        ensures 0.0 <= r[i].score <= 100.0
      {
        assert r[i] == s[|s| - |r| + i];
      }
    }
  }

  /**
   * Appending keeps the newest three detected gaps (the new entry last) when the entry has gaps,
   * and the newest `⌊maxHistoryItems⌋` history entries; the two logs keep their invariants:
   * every detected-gaps entry has a gap, every history score lies in [0, 100].
   */
  lemma AppendedKeepsInvariants(store: Store, entry: HistoryEntry)
    requires HistoryBound(store.settings).Some? ==> HistoryBound(store.settings).value >= 0.0
    ensures var saved := Appended(store, entry);
            var gaps := store.detectedGaps.GetOr([]);
            var history := store.analysisHistory.GetOr([]);
            var bound := HistoryBound(store.settings);
            && (|entry.gaps| > 0 ==> saved.detectedGaps.value == Newest(gaps + [entry], MaxDetectedGaps))
            && (|entry.gaps| > 0 ==> |saved.detectedGaps.value| <= MaxDetectedGaps)
            && (|entry.gaps| > 0 ==> saved.detectedGaps.value[|saved.detectedGaps.value| - 1] == entry)
            && (|entry.gaps| == 0 ==> saved.detectedGaps.value == gaps)
            && (bound.None? ==> saved.analysisHistory.value == history + [entry])
            && (bound.Some? ==> saved.analysisHistory.value == Newest(history + [entry], bound.value.Floor as nat))
            && (EveryEntryHasGaps(store.detectedGaps.GetOr([])) ==> EveryEntryHasGaps(saved.detectedGaps.value))
            && (ScoresInRange(store.analysisHistory.GetOr([])) && 0.0 <= entry.score <= 100.0 ==>
                  ScoresInRange(saved.analysisHistory.value))
  {
    var gaps := store.detectedGaps.GetOr([]);
    var history := store.analysisHistory.GetOr([]);
    ShiftKeepsNewest(gaps + [entry], MaxDetectedGaps as real);
    if HistoryBound(store.settings).Some? {
      ShiftKeepsNewest(history + [entry], HistoryBound(store.settings).value);
    }
    if |entry.gaps| > 0 && EveryEntryHasGaps(gaps) {
      GapLogKeepsGaps(gaps, entry);
    }
    if ScoresInRange(history) && 0.0 <= entry.score <= 100.0 {
      HistoryKeepsScores(history, entry, HistoryBound(store.settings));
    }
  }

  /**
   * `saveAnalysis`: a bad title or an invalid analysis writes nothing. Otherwise the entry is
   * appended to `detectedGaps` (only when it has gaps; the oldest are dropped beyond three)
   * and to `analysisHistory` (the oldest are dropped beyond `maxHistoryItems || 100`), and a
   * sync is requested unless the settings say offline.
   */
  method SaveAnalysis(store: Store, pageTitle: string, analysis: RawAnalysis, url: string, clock: Clock)
    returns (saved: Store, result: Outcome<string>, syncRequested: bool)
    requires pageTitle != "" && ValidateAnalysis(analysis) == Pass && HistoryBound(store.settings).Some? ==>
               HistoryBound(store.settings).value >= 0.0
    ensures pageTitle == "" ==> result == Fail("Invalid page title")
    ensures pageTitle != "" ==> result == ValidateAnalysis(analysis)
    ensures result.Fail? ==> saved == store && !syncRequested
    ensures result.Pass? ==>
      && saved == Appended(store, EntryFor(pageTitle, url, clock, analysis, store.settings))
      && syncRequested == !TruthyField(if store.settings.Some? then Field(store.settings.value, "offlineMode") else None)
    ensures result.Pass? && |analysis.gaps.value| > 0 ==> |saved.detectedGaps.value| <= MaxDetectedGaps
    ensures result.Pass? && EveryEntryHasGaps(store.detectedGaps.GetOr([])) ==> EveryEntryHasGaps(saved.detectedGaps.value)
    ensures result.Pass? && ScoresInRange(store.analysisHistory.GetOr([])) ==> ScoresInRange(saved.analysisHistory.value)
  {
    if pageTitle == "" {
      return store, Fail("Invalid page title"), false;
    }
    result := ValidateAnalysis(analysis);
    if result.Fail? {
      return store, result, false;
    }
    var entry := EntryFor(pageTitle, url, clock, analysis, store.settings);
    var detectedGaps := store.detectedGaps.GetOr([]);
    if |entry.gaps| > 0 {
      detectedGaps := DropOldest(detectedGaps + [entry], Some(MaxDetectedGaps as real));
    }
    var history := DropOldest(store.analysisHistory.GetOr([]) + [entry], HistoryBound(store.settings));
    saved := store.(detectedGaps := Some(detectedGaps), analysisHistory := Some(history));
    AppendedKeepsInvariants(store, entry);
    var offline := if store.settings.Some? then Field(store.settings.value, "offlineMode") else None;
    syncRequested := !TruthyField(offline);
  }
}
