/**
 * The additive-penalty scorer of `nlp.js`: a page's sections and reference count are compared
 * with a JSON template; the score starts at 100, every finding subtracts a fixed penalty, and
 * the result is clamped at 0.
 */
module Nlp {
  import opened Wrappers
  import opened JsText
  import opened JsValue

  /** A section of the page: its heading and its text. */
  datatype Section = Section(title: string, content: string)

  /** The page as the scorer sees it. */
  datatype ContentDoc = ContentDoc(sections: seq<Section>, references: int)

  /** A template section: the entities its text should mention and its minimum word count. */
  datatype TemplateSection = TemplateSection(title: string, entities: seq<string>, minWords: int)

  datatype Template = Template(requiredSections: seq<string>, sections: seq<TemplateSection>, minReferences: int)

  /** An entry of `incompleteSections`. */
  datatype Incomplete = Incomplete(title: string, reason: string)

  /** `{score, missingSections, incompleteSections}` */
  datatype NlpAnalysis = NlpAnalysis(score: int, missingSections: seq<string>, incompleteSections: seq<Incomplete>)

  const MissingSectionPenalty := 5
  const LowCoveragePenalty := 3
  const ShortSectionPenalty := 2
  const MissingReferencePenalty := 2

  /** Titles are compared exactly, after lower-casing both. */
  predicate SameTitle(a: string, b: string) {
    ToLower(a) == ToLower(b)
  }

  predicate HasTitle(sections: seq<Section>, title: string) {
    exists i :: 0 <= i < |sections| && SameTitle(sections[i].title, title)
  }

  /** The required sections no page section is titled after, in template order. */
  function MissingSections(required: seq<string>, sections: seq<Section>): (r: seq<string>)
    ensures |r| <= |required|
    ensures forall s :: s in r <==> s in required && !HasTitle(sections, s)
  {
    if required == [] then []
    else
      var last := required[|required| - 1];
      MissingSections(required[..|required| - 1], sections)
      + (if HasTitle(sections, last) then [] else [last])
  }

  /** `template.sections.find(...)`: the first template section with the same title. */
  function FindTemplateSection(ts: seq<TemplateSection>, title: string): (r: Option<TemplateSection>)
    ensures r.None? <==> forall i :: 0 <= i < |ts| ==> !SameTitle(ts[i].title, title)
    ensures r.Some? ==> exists i :: 0 <= i < |ts| && ts[i] == r.value && SameTitle(ts[i].title, title)
                                    && forall j :: 0 <= j < i ==> !SameTitle(ts[j].title, title)
  {
    if ts == [] then None
    else if SameTitle(ts[0].title, title) then Some(ts[0])
    else
      var r := FindTemplateSection(ts[1..], title);
      if r.Some? then
        var i :| 0 < i + 1 <= |ts[1..]| && ts[1..][i] == r.value && SameTitle(ts[1..][i].title, title)
                 && forall j :: 0 <= j < i ==> !SameTitle(ts[1..][j].title, title);
        assert ts[i + 1] == r.value;
        assert forall j :: 1 <= j < i + 1 ==> ts[j] == ts[1..][j - 1];
        r
      else
        assert forall i :: 1 <= i < |ts| ==> ts[i] == ts[1..][i - 1];
        r
  }

  predicate Mentions(text: string, entity: string) {
    Includes(ToLower(text), ToLower(entity))
  }

  /** The entities the text mentions, in list order. */
  function FoundEntities(text: string, entities: seq<string>): (r: seq<string>)
    ensures |r| <= |entities|
    ensures forall e :: e in r <==> e in entities && Mentions(text, e)
    ensures |r| == |entities| <==> forall i :: 0 <= i < |entities| ==> Mentions(text, entities[i])
  {
    if entities == [] then []
    else
      var rest := FoundEntities(text, entities[1..]);
      assert forall i :: 1 <= i < |entities| ==> entities[i] == entities[1..][i - 1];
      if Mentions(text, entities[0]) then [entities[0]] + rest else rest
  }

  /**
   * `calculateEntityCoverage`: the share of entities the text mentions. For an empty list the
   * division is 0/0, NaN, written `None`.
   */
  function EntityCoverage(text: string, entities: seq<string>): (r: Option<real>)
    ensures r.None? <==> entities == []
    ensures r.Some? ==> 0.0 <= r.value <= 1.0
    ensures r.Some? ==> (r.value == 1.0 <==> forall i :: 0 <= i < |entities| ==> Mentions(text, entities[i]))
  {
    if entities == [] then None
    else
      var found := |FoundEntities(text, entities)|;
      Ratio(found, |entities|);
      Some(found as real / |entities| as real)
  }

  /** `entityCoverage < 0.7`; NaN compares false. */
  predicate LowCoverage(coverage: Option<real>) {
    coverage.Some? && coverage.value < 0.7
  }

  const CoverageReasonHead := "Low coverage of required entities ("
  const CoverageReasonTail := "%)"
  const ShortReasonHead := "Section too short ("
  const ShortReasonMiddle := " words, minimum "
  const ShortReasonTail := " required)"
  const ReferencesTitle := "References"
  const ReferenceReasonHead := "Insufficient references ("

  function CoverageReason(coverage: real): string
    requires 0.0 <= coverage <= 1.0
  {
    CoverageReasonHead + IntToString(Round(coverage * 100.0)) + CoverageReasonTail
  }

  function ShortReason(words: nat, minWords: int): string {
    ShortReasonHead + NatToString(words) + ShortReasonMiddle + IntToString(minWords) + ShortReasonTail
  }

  /** The records one page section adds against its template section: coverage first, then length. */
  function SectionRecords(s: Section, t: TemplateSection): (r: seq<Incomplete>)
    ensures |r| <= 2
    ensures forall i :: 0 <= i < |r| ==> r[i].title == s.title
  {
    var coverage := EntityCoverage(s.content, t.entities);
    (if LowCoverage(coverage) then [Incomplete(s.title, CoverageReason(coverage.value))] else [])
    + (if SplitCount(s.content) < t.minWords then [Incomplete(s.title, ShortReason(SplitCount(s.content), t.minWords))] else [])
  }

  /** The points one page section costs against its template section. */
  function SectionPenalty(s: Section, t: TemplateSection): int {
    (if LowCoverage(EntityCoverage(s.content, t.entities)) then LowCoveragePenalty else 0)
    + (if SplitCount(s.content) < t.minWords then ShortSectionPenalty else 0)
  }

  /** The records the section loop pushes for the page sections `secs`, in page order. */
  function SectionLoopRecords(secs: seq<Section>, ts: seq<TemplateSection>): seq<Incomplete> {
    if secs == [] then []
    else
      var last := secs[|secs| - 1];
      var t := FindTemplateSection(ts, last.title);
      SectionLoopRecords(secs[..|secs| - 1], ts) + (if t.Some? then SectionRecords(last, t.value) else [])
  }

  /** The points the section loop subtracts for the page sections `secs`. */
  function SectionLoopPenalty(secs: seq<Section>, ts: seq<TemplateSection>): int {
    if secs == [] then 0
    else
      var last := secs[|secs| - 1];
      var t := FindTemplateSection(ts, last.title);
      SectionLoopPenalty(secs[..|secs| - 1], ts) + (if t.Some? then SectionPenalty(last, t.value) else 0)
  }

  /** One more page section adds its own records and penalty, or none when no template section matches it. */
  lemma SectionLoopStep(secs: seq<Section>, ts: seq<TemplateSection>, j: nat)
    requires j < |secs|
    ensures var t := FindTemplateSection(ts, secs[j].title);
            && SectionLoopRecords(secs[..j + 1], ts) ==
               SectionLoopRecords(secs[..j], ts) + (if t.Some? then SectionRecords(secs[j], t.value) else [])
            && SectionLoopPenalty(secs[..j + 1], ts) ==
               SectionLoopPenalty(secs[..j], ts) + (if t.Some? then SectionPenalty(secs[j], t.value) else 0)
  {
    assert secs[..j + 1][..j] == secs[..j];
  }

  /** Every record costs at least two points, and a penalty is charged only with a record. */
  lemma {:induction false} PenaltyCoversRecords(secs: seq<Section>, ts: seq<TemplateSection>)
    ensures SectionLoopPenalty(secs, ts) >= 2 * |SectionLoopRecords(secs, ts)|
    ensures SectionLoopPenalty(secs, ts) == 0 <==> SectionLoopRecords(secs, ts) == []
  {
    if secs != [] {
      PenaltyCoversRecords(secs[..|secs| - 1], ts);
    }
  }

  /** The references record, present exactly when there are fewer references than required. */
  function ReferenceRecords(references: int, minReferences: int): seq<Incomplete> {
    if references < minReferences
    then [Incomplete(ReferencesTitle,
                     ReferenceReasonHead + IntToString(references) + "/" + IntToString(minReferences) + ")")]
    else []
  }

  function ReferencePenalty(references: int, minReferences: int): int {
    if references < minReferences then (minReferences - references) * MissingReferencePenalty else 0
  }

  /** The score before clamping: 100 less every penalty. */
  function RawScore(c: ContentDoc, t: Template): int {
    100
    - MissingSectionPenalty * |MissingSections(t.requiredSections, c.sections)|
    - SectionLoopPenalty(c.sections, t.sections)
    - ReferencePenalty(c.references, t.minReferences)
  }

  /** `Math.max(0, Math.round(score))` on an integer score. */
  function Clamp(score: int): int {
    var r := Round(score as real);
    if r < 0 then 0 else r
  }

  /** The penalties are never negative, so the raw score is at most 100, and rounding keeps an integer. */
  lemma RawScoreAtMostFull(c: ContentDoc, t: Template)
    ensures RawScore(c, t) <= 100
    ensures 0 <= Clamp(RawScore(c, t)) <= 100
  {
    PenaltyCoversRecords(c.sections, t.sections);
  }

  /** The body of the section loop for a section with a template section: coverage, then length. */
  method CheckSection(section: Section, ts: TemplateSection) returns (records: seq<Incomplete>, penalty: int)
    ensures records == SectionRecords(section, ts)
    ensures penalty == SectionPenalty(section, ts)
  {
    records := [];
    penalty := 0;
    var coverage := EntityCoverage(section.content, ts.entities);
    if LowCoverage(coverage) {
      records := records + [Incomplete(section.title, CoverageReason(coverage.value))];
      penalty := penalty + LowCoveragePenalty;
    }
    var wordCount := SplitCount(section.content);
    if wordCount < ts.minWords {
      records := records + [Incomplete(section.title, ShortReason(wordCount, ts.minWords))];
      penalty := penalty + ShortSectionPenalty;
    }
  }

  /**
   * `analyzeContent`: the missing-section loop, the section loop and the references check, each
   * subtracting its penalties from 100, then the clamp.
   */
  method AnalyzeContent(c: ContentDoc, t: Template) returns (a: NlpAnalysis)
    ensures a.missingSections == MissingSections(t.requiredSections, c.sections)
    ensures a.incompleteSections == SectionLoopRecords(c.sections, t.sections)
                                    + ReferenceRecords(c.references, t.minReferences)
    ensures a.score == Clamp(RawScore(c, t))
    ensures 0 <= a.score <= 100
    ensures a.score == 100 <==> a.missingSections == [] && a.incompleteSections == []
  {
    var missing := MissingLoop(t.requiredSections, c.sections);
    var score := 100 - MissingSectionPenalty * |missing|;
    var incomplete, penalty := SectionLoop(c.sections, t.sections);
    score := score - penalty;

    if c.references < t.minReferences {
      score := score - (t.minReferences - c.references) * MissingReferencePenalty;
      incomplete := incomplete + ReferenceRecords(c.references, t.minReferences);
    }

    assert score == RawScore(c, t);
    score := Clamp(score);
    a := NlpAnalysis(score, missing, incomplete);
    RawScoreAtMostFull(c, t);
    FullScoreIffNoFindings(c, t);
  }

  /** The first loop of `analyzeContent`: every required section no page section is titled after. */
  method MissingLoop(required: seq<string>, sections: seq<Section>) returns (missing: seq<string>)
    ensures missing == MissingSections(required, sections)
  {
    missing := [];
    var i := 0;
    while i < |required|
      invariant 0 <= i <= |required|
      invariant missing == MissingSections(required[..i], sections)
    {
      assert required[..i + 1][..i] == required[..i];
      if !HasTitle(sections, required[i]) {
        missing := missing + [required[i]];
      }
      i := i + 1;
    }
    assert required[..i] == required;
  }

  /** The second loop of `analyzeContent`: the records and points of every page section with a template section. */
  method SectionLoop(secs: seq<Section>, ts: seq<TemplateSection>) returns (incomplete: seq<Incomplete>, penalty: int)
    ensures incomplete == SectionLoopRecords(secs, ts)
    ensures penalty == SectionLoopPenalty(secs, ts)
  {
    incomplete := [];
    penalty := 0;
    var j := 0;
    while j < |secs|
      invariant 0 <= j <= |secs|
      invariant incomplete == SectionLoopRecords(secs[..j], ts)
      invariant penalty == SectionLoopPenalty(secs[..j], ts)
    {
      var section := secs[j];
      var templateSection := FindTemplateSection(ts, section.title);
      SectionLoopStep(secs, ts, j);
      if templateSection.Some? {
        var records, points := CheckSection(section, templateSection.value);
        incomplete := incomplete + records;
        penalty := penalty + points;
      }
      j := j + 1;
    }
    assert secs[..j] == secs;
  }

  /** The clamped score is 100 exactly when nothing is missing and no record was written. */
  lemma FullScoreIffNoFindings(c: ContentDoc, t: Template)
    ensures Clamp(RawScore(c, t)) == 100 <==>
      && MissingSections(t.requiredSections, c.sections) == []
      && SectionLoopRecords(c.sections, t.sections) + ReferenceRecords(c.references, t.minReferences) == []
  {
    PenaltyCoversRecords(c.sections, t.sections);
    assert Round(RawScore(c, t) as real) == RawScore(c, t);
  }

  /** A page that covers every required section and entity, at length, with enough references, scores 100. */
  lemma {:induction false} CompletePageScoresFull(c: ContentDoc, t: Template)
    requires forall s :: s in t.requiredSections ==> HasTitle(c.sections, s)
    requires forall s :: s in c.sections && FindTemplateSection(t.sections, s.title).Some? ==>
               SectionRecords(s, FindTemplateSection(t.sections, s.title).value) == []
    requires c.references >= t.minReferences
    ensures Clamp(RawScore(c, t)) == 100
  {
    NothingMissing(t.requiredSections, c.sections);
    NoRecordsFromCompleteSections(c.sections, t.sections);
    FullScoreIffNoFindings(c, t);
  }

  lemma {:induction false} NothingMissing(required: seq<string>, sections: seq<Section>)
    requires forall s :: s in required ==> HasTitle(sections, s)
    ensures MissingSections(required, sections) == []
  {
    if required != [] {
      assert required[|required| - 1] in required;
      NothingMissing(required[..|required| - 1], sections);
    }
  }

  lemma {:induction false} NoRecordsFromCompleteSections(secs: seq<Section>, ts: seq<TemplateSection>)
    requires forall s :: s in secs && FindTemplateSection(ts, s.title).Some? ==>
               SectionRecords(s, FindTemplateSection(ts, s.title).value) == []
    ensures SectionLoopRecords(secs, ts) == []
  {
    if secs != [] {
      assert secs[|secs| - 1] in secs;
      NoRecordsFromCompleteSections(secs[..|secs| - 1], ts);
    }
  }
}
