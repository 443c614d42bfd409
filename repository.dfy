/**
 * The wikitext auditor of the repository page (`repository.js`): a parsed Wikipedia article is
 * compared with a gold-standard section list; the completeness score weighs section coverage,
 * the presence of an infobox and reference density, and the gap report lists what is missing
 * with one suggestion per gap.
 */
module Repository {
  import opened Wrappers
  import opened JsText
  import opened JsValue

  const UniversityGold: seq<string> := [
    "History", "Campus", "Academics", "Administration", "Faculties", "Student life",
    "Research", "Notable alumni", "References"]

  const CouncilGold: seq<string> := [
    "History", "Geography", "Governance", "Elections", "Functions", "Departments",
    "Budget", "Infrastructure", "Demographics", "Leadership", "Challenges", "References"]

  /** The gold list: the university list for the type `"University"`, the council list for any other. */
  function GoldSections(entityType: string): (r: seq<string>)
    ensures |r| > 0
    ensures entityType == "University" ==> r == UniversityGold
    ensures entityType != "University" ==> r == CouncilGold
  {
    if entityType == "University" then UniversityGold else CouncilGold
  }

  /** The `wikitext` field of a parse result; `NoWikitext`: the field is missing, so reading `["*"]` throws. */
  datatype WikitextField = NoWikitext | Wikitext(star: Option<string>)

  /**
   * The `parse` object of the API answer. The reference count (matches of `<ref…>…</ref>`) and
   * the number of non-empty words of the markup-stripped text are computed from the wikitext by
   * regular expressions and are taken here as given.
   */
  datatype Parse = Parse(sections: Option<seq<string>>, wikitext: WikitextField, refMatches: nat, plainWords: nat)

  /** `(parse.sections || []).map(s => s.line.toLowerCase())` */
  function SectionLines(p: Parse): (r: seq<string>)
    ensures |r| == |p.sections.GetOr([])|
    ensures forall i :: 0 <= i < |r| ==> r[i] == ToLower(p.sections.GetOr([])[i])
  {
    var lines := p.sections.GetOr([]);
    seq(|lines|, i requires 0 <= i < |lines| => ToLower(lines[i]))
  }

  /** `parse.wikitext["*"] || ""`, for a parse that has the field. */
  function WikitextOf(p: Parse): string
    requires p.wikitext.Wikitext?
  {
    p.wikitext.star.GetOr("")
  }

  /** Some lower-cased section line contains the lower-cased gold section. */
  predicate Covered(lines: seq<string>, required: string) {
    exists i :: 0 <= i < |lines| && Includes(lines[i], ToLower(required))
  }

  /** The gold sections no line covers, in gold order. */
  function MissingGold(gold: seq<string>, lines: seq<string>): (r: seq<string>)
    ensures |r| <= |gold|
  {
    if gold == [] then []
    else
      var last := gold[|gold| - 1];
      MissingGold(gold[..|gold| - 1], lines) + (if Covered(lines, last) then [] else [last])
  }

  /** A gold section is reported missing exactly when no lower-cased line contains it. */
  lemma {:induction false} MissingGoldExactly(gold: seq<string>, lines: seq<string>)
    ensures forall s :: s in MissingGold(gold, lines) <==> s in gold && !Covered(lines, s)
  {
    if gold != [] {
      var front := gold[..|gold| - 1];
      MissingGoldExactly(front, lines);
      assert forall s :: s in gold <==> s in front || s == gold[|gold| - 1];
    }
  }

  /** `/\{\{Infobox/i.test(wikitext)` */
  predicate HasInfobox(wikitext: string) {
    Includes(ToLower(wikitext), "{{infobox")
  }

  /** `(matchedCount / gold.length) * 100` */
  function SectionScore(matched: nat, total: nat): (r: real)
    requires matched <= total && total > 0
    ensures 0.0 <= r <= 100.0
    ensures r == 100.0 <==> matched == total
  {
    Ratio(matched, total);
    var q := matched as real / total as real;
    q * 100.0
  }

  /** `Math.min(((refs / wordCount) * 100 / 1) * 100, 100)`, with `wordCount || 1` already applied. */
  function RefScore(refs: nat, wordCount: nat): (r: real)
    requires wordCount > 0
    ensures 0.0 <= r <= 100.0
    ensures r == 100.0 <==> refs * 100 >= wordCount
  {
    var scaled := ((refs as real / wordCount as real) * 100.0) * 100.0;
    Density(refs, wordCount);
    if scaled < 100.0 then scaled else 100.0
  }

  /** The reference score before capping is `refs * 10000 / wordCount`, and reaches 100 at one reference per hundred words. */
  lemma Density(refs: nat, wordCount: nat)
    requires wordCount > 0
    ensures var scaled := ((refs as real / wordCount as real) * 100.0) * 100.0;
            && scaled >= 0.0
            && scaled * wordCount as real == (refs * 10000) as real
            && (scaled >= 100.0 <==> refs * 100 >= wordCount)
  {
    var q := refs as real / wordCount as real;
    assert q * wordCount as real == refs as real;
    var scaled := (q * 100.0) * 100.0;
    assert scaled * wordCount as real == (refs * 10000) as real;
    if scaled >= 100.0 {
      assert scaled * wordCount as real >= 100.0 * wordCount as real;
    } else {
      assert scaled * wordCount as real < 100.0 * wordCount as real;
    }
  }

  /** `Math.round(sectionScore * 0.5 + infoboxScore * 0.2 + refScore * 0.3)` */
  function FinalScore(sectionScore: real, infobox: bool, refScore: real): (r: int)
    requires 0.0 <= sectionScore <= 100.0 && 0.0 <= refScore <= 100.0
    ensures 0 <= r <= 100
    ensures r == 100 <==> sectionScore * 0.5 + refScore * 0.3 + (if infobox then 20.0 else 0.0) >= 99.5
  {
    Round(sectionScore * 0.5 + (if infobox then 100.0 else 0.0) * 0.2 + refScore * 0.3)
  }

  /** The `matchedCount++` loop: the gold sections some line covers. */
  method MatchedCount(gold: seq<string>, lines: seq<string>) returns (matched: nat)
    ensures matched == |gold| - |MissingGold(gold, lines)|
    ensures matched == |gold| <==> forall s :: s in gold ==> Covered(lines, s)
  {
    matched := 0;
    var i := 0;
    while i < |gold|
      invariant 0 <= i <= |gold|
      invariant matched == CoveredCount(gold[..i], lines)
    {
      assert gold[..i + 1][..i] == gold[..i];
      if Covered(lines, gold[i]) {
        matched := matched + 1;
      }
      i := i + 1;
    }
    assert gold[..i] == gold;
    CoveredCountComplement(gold, lines);
    NoneMissingIffCovered(gold, lines);
  }

  /** How many of the gold sections some line covers, counted left to right. */
  function CoveredCount(gold: seq<string>, lines: seq<string>): nat {
    if gold == [] then 0
    else CoveredCount(gold[..|gold| - 1], lines) + (if Covered(lines, gold[|gold| - 1]) then 1 else 0)
  }

  /** The covered and the missing gold sections split the gold list between them. */
  lemma {:induction false} CoveredCountComplement(gold: seq<string>, lines: seq<string>)
    ensures CoveredCount(gold, lines) == |gold| - |MissingGold(gold, lines)|
  {
    if gold != [] {
      CoveredCountComplement(gold[..|gold| - 1], lines);
    }
  }

  /** No gold section is missing exactly when every gold section is covered by some line. */
  lemma NoneMissingIffCovered(gold: seq<string>, lines: seq<string>)
    ensures MissingGold(gold, lines) == [] <==> forall s :: s in gold ==> Covered(lines, s)
  {
    var missing := MissingGold(gold, lines);
    if missing != [] {
      assert missing[0] in missing;
    }
  }

  /**
   * `calculateCompletenessScore`, after the fetch: no `parse` field, or a parse whose wikitext
   * field is missing (the read throws and is caught), scores 0; otherwise the weighted score of
   * the matched gold sections, the infobox test and the reference density.
   */
  method CalculateCompletenessScore(response: Option<Parse>, entityType: string) returns (score: int)
    ensures 0 <= score <= 100
    ensures response.None? || response.value.wikitext.NoWikitext? ==> score == 0
    ensures response.Some? && response.value.wikitext.Wikitext? ==>
      var p := response.value;
      var gold := GoldSections(entityType);
      var matched := |gold| - |MissingGold(gold, SectionLines(p))|;
      score == FinalScore(SectionScore(matched, |gold|), HasInfobox(WikitextOf(p)),
                          RefScore(p.refMatches, if p.plainWords == 0 then 1 else p.plainWords))
  {
    var gold := GoldSections(entityType);
    if response.None? {
      return 0;
    }
    var p := response.value;
    var sections := SectionLines(p);
    if p.wikitext.NoWikitext? {
      return 0;
    }
    var wikitext := WikitextOf(p);

    var matchedCount := MatchedCount(gold, sections);
    var sectionScore := SectionScore(matchedCount, |gold|);

    var infoboxPresent := HasInfobox(wikitext);
    var wordCount := if p.plainWords == 0 then 1 else p.plainWords;
    var refScore := RefScore(p.refMatches, wordCount);
    score := FinalScore(sectionScore, infoboxPresent, refScore);
  }

  /** A gold-complete page with an infobox and at least one reference per hundred words scores 100. */
  lemma FullMarks(p: Parse, entityType: string)
    requires p.wikitext.Wikitext? && HasInfobox(WikitextOf(p))
    requires MissingGold(GoldSections(entityType), SectionLines(p)) == []
    requires p.refMatches * 100 >= (if p.plainWords == 0 then 1 else p.plainWords)
    ensures var gold := GoldSections(entityType);
            FinalScore(SectionScore(|gold|, |gold|), true,
                       RefScore(p.refMatches, if p.plainWords == 0 then 1 else p.plainWords)) == 100
  {
  }

  /** The gap report: gaps and suggestions, index-aligned. */
  datatype GapReport = GapReport(gaps: seq<string>, suggestions: seq<string>)

  const MinRefMatches := 5

  function MissingSectionGap(section: string): string {
    "Missing section: " + section
  }

  function MissingSectionSuggestion(section: string): string {
    "Add a '" + section + "' section to improve completeness."
  }

  const MissingInfoboxGap := "Missing infobox"
  const MissingInfoboxSuggestion := "Add an infobox for key facts."
  const FewReferencesGap := "Insufficient references"
  const FewReferencesSuggestion := "Add more reliable sources and citations."

  /** The suggestion that answers a gap line. */
  ghost predicate Answers(gap: string, suggestion: string) {
    || (exists s :: gap == MissingSectionGap(s) && suggestion == MissingSectionSuggestion(s))
    || (gap == MissingInfoboxGap && suggestion == MissingInfoboxSuggestion)
    || (gap == FewReferencesGap && suggestion == FewReferencesSuggestion)
  }

  lemma AnswersSection(section: string)
    ensures Answers(MissingSectionGap(section), MissingSectionSuggestion(section))
  {
  }

  /** Gap lines and suggestions of equal length, each suggestion answering its gap. */
  ghost predicate Aligned(gaps: seq<string>, suggestions: seq<string>) {
    |gaps| == |suggestions| && forall i :: 0 <= i < |gaps| ==> Answers(gaps[i], suggestions[i])
  }

  lemma AlignedConcat(g1: seq<string>, s1: seq<string>, g2: seq<string>, s2: seq<string>)
    requires Aligned(g1, s1) && Aligned(g2, s2)
    ensures Aligned(g1 + g2, s1 + s2)
  {
    forall i | 0 <= i < |g1| + |g2|
      ensures Answers((g1 + g2)[i], (s1 + s2)[i])
    {
      if i >= |g1| {
        assert (g1 + g2)[i] == g2[i - |g1|] && (s1 + s2)[i] == s2[i - |g1|];
      }
    }
  }

  /** The gap lines of the missing sections and the suggestions the `forEach` pushes for them. */
  method SectionPairs(missing: seq<string>) returns (gaps: seq<string>, suggestions: seq<string>)
    ensures |gaps| == |suggestions| == |missing|
    ensures forall i :: 0 <= i < |missing| ==> gaps[i] == MissingSectionGap(missing[i])
    ensures Aligned(gaps, suggestions)
  {
    gaps := seq(|missing|, i requires 0 <= i < |missing| => MissingSectionGap(missing[i]));
    suggestions := [];
    var i := 0;
    while i < |missing|
      invariant 0 <= i <= |missing|
      invariant |suggestions| == i
      invariant forall k :: 0 <= k < i ==> suggestions[k] == MissingSectionSuggestion(missing[k])
    {
      suggestions := suggestions + [MissingSectionSuggestion(missing[i])];
      i := i + 1;
    }
    forall k | 0 <= k < |missing|
      ensures Answers(gaps[k], suggestions[k])
    {
      AnswersSection(missing[k]);
    }
  }

  /**
   * `detectGapsAndSuggestions`: one pair per missing gold section, in gold order; then the
   * infobox pair when the infobox test fails; then the references pair when there are fewer
   * than five references. `None`: the parse has no wikitext field, and the read throws.
   */
  method DetectGapsAndSuggestions(p: Parse, entityType: string) returns (report: Option<GapReport>)
    ensures report.None? <==> p.wikitext.NoWikitext?
    ensures report.Some? ==>
      var missing := MissingGold(GoldSections(entityType), SectionLines(p));
      var r := report.value;
      && Aligned(r.gaps, r.suggestions)
      && |r.gaps| >= |missing|
      && (forall i :: 0 <= i < |missing| ==> r.gaps[i] == MissingSectionGap(missing[i]))
      && r.gaps[|missing|..] == (if HasInfobox(WikitextOf(p)) then [] else [MissingInfoboxGap])
                                + (if p.refMatches < MinRefMatches then [FewReferencesGap] else [])
  {
    var gold := GoldSections(entityType);
    var sections := SectionLines(p);
    if p.wikitext.NoWikitext? {
      return None;
    }
    var wikitext := WikitextOf(p);
    var missing := MissingGold(gold, sections);
    var gaps, suggestions := SectionPairs(missing);
    ghost var sectionGaps := gaps;
    if !HasInfobox(wikitext) {
      AlignedConcat(gaps, suggestions, [MissingInfoboxGap], [MissingInfoboxSuggestion]);
      gaps := gaps + [MissingInfoboxGap];
      suggestions := suggestions + [MissingInfoboxSuggestion];
    }
    if p.refMatches < MinRefMatches {
      AlignedConcat(gaps, suggestions, [FewReferencesGap], [FewReferencesSuggestion]);
      gaps := gaps + [FewReferencesGap];
      suggestions := suggestions + [FewReferencesSuggestion];
    }
    assert gaps[..|missing|] == sectionGaps;
    report := Some(GapReport(gaps, suggestions));
  }

  /**
   * Both routines use the same gold list and the same substring test: the section part of the
   * score is full exactly when the gap report names no missing section.
   */
  lemma SectionScoreFullIffNoMissingSection(p: Parse, entityType: string)
    ensures var gold := GoldSections(entityType);
            var missing := MissingGold(gold, SectionLines(p));
            SectionScore(|gold| - |missing|, |gold|) == 100.0 <==> missing == []
  {
    var gold := GoldSections(entityType);
    var missing := MissingGold(gold, SectionLines(p));
    assert |missing| <= |gold| && |gold| > 0;
    assert |gold| - |missing| == |gold| <==> missing == [];
  }
}
