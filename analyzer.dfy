/** The analyzer itself: an `ATSAnalyzer` is built from a resume and a job
    description, keeps both texts lower-cased, and computes the keyword,
    skill, formatting and readability scores, the weighted overall score, the
    suggestions and the detailed report from them. */
module Analyzer {
  import opened Text
  import opened Numbers
  import opened Keywords
  import opened KeywordMatch
  import opened Skills
  import opened ResumeData
  import opened Formatting
  import opened Readability
  import opened Suggestions

  /** `round(k * 0.35 + s * 0.30 + f * 0.25 + r * 0.10)`, with the weights as the
      exact fractions 35/100, 30/100, 25/100 and 10/100; the result lies within
      half a point of the exact weighted sum. */
  function OverallScore(keyword: int, skill: int, format: int, readability: int): (overall: int)
    ensures -50 <= 35 * keyword + 30 * skill + 25 * format + 10 * readability - 100 * overall <= 50
  {
    RoundHalfEven(35 * keyword + 30 * skill + 25 * format + 10 * readability, 100)
  }

  /** Four scores in [0, 100] give an overall score in [0, 100]. */
  lemma OverallScoreRange(k: int, s: int, f: int, r: int)
    requires 0 <= k <= 100 && 0 <= s <= 100 && 0 <= f <= 100 && 0 <= r <= 100
    ensures 0 <= OverallScore(k, s, f, r) <= 100
  {
    RoundHalfEvenMonotonic(0, 35 * k + 30 * s + 25 * f + 10 * r, 100);
    RoundHalfEvenMonotonic(35 * k + 30 * s + 25 * f + 10 * r, 10000, 100);
    RoundHalfEvenUnique(0, 100, 0);
    RoundHalfEvenUnique(10000, 100, 100);
  }

  /** The weights add up to one: four equal scores give that score back. */
  lemma OverallScoreUniform(v: int)
    ensures OverallScore(v, v, v, v) == v
  {
    RoundHalfEvenUnique(100 * v, 100, v);
  }

  /** Raising any of the four scores never lowers the overall score. */
  lemma OverallScoreMonotonic(k: int, s: int, f: int, r: int, k': int, s': int, f': int, r': int)
    requires k <= k' && s <= s' && f <= f' && r <= r'
    ensures OverallScore(k, s, f, r) <= OverallScore(k', s', f', r')
  {
    RoundHalfEvenMonotonic(35 * k + 30 * s + 25 * f + 10 * r, 35 * k' + 30 * s' + 25 * f' + 10 * r', 100);
  }

  /** The keyword map of any text has positive counts, distinct keys and at
      most `MaxKeywords` entries. */
  lemma KeywordMapShape(text: string)
    ensures var m := ExtractKeywords(text, MinLength, MaxKeywords);
      CountsPositive(m) && Distinct(Keys(m)) && |m| <= MaxKeywords
  {
    var m := ExtractKeywords(text, MinLength, MaxKeywords);
    ExtractKeywordsSize(text, MinLength, MaxKeywords);
    forall e | e in m ensures e.count >= 1 {
      ExtractKeywordsCounts(text, MinLength, MaxKeywords, e);
    }
  }

  /** The loop of `calculate_keyword_match`: every job-description keyword is
      looked up in the resume's map; present ones are matched and get a density
      entry, absent ones are missing. */
  method CompareKeywordMaps(jd: seq<Freq>, res: seq<Freq>)
    returns (matched: seq<string>, missing: seq<string>, density: map<string, Density>)
    requires CountsPositive(jd)
    ensures matched == MatchedKeys(jd, res)
    ensures missing == MissingKeys(jd, res)
    ensures density == DensityMap(jd, res)
  {
    matched, missing, density := [], [], map[];
    var i := 0;
    while i < |jd|
      invariant 0 <= i <= |jd|
      invariant CountsPositive(jd[..i])
      invariant matched == MatchedKeys(jd[..i], res)
      invariant missing == MissingKeys(jd[..i], res)
      invariant density == DensityMap(jd[..i], res)
    {
      var keyword, jdCount := jd[i].word, jd[i].count;
      assert jd[i] in jd;
      var resumeCount := Get(res, keyword);
      if resumeCount > 0 {
        matched := matched + [keyword];
        density := density[keyword := Density(jdCount, resumeCount, MatchRatio(resumeCount, jdCount))];
      } else {
        missing := missing + [keyword];
      }
      assert jd[..i + 1][..i] == jd[..i];
      i := i + 1;
      CountsPositivePrefix(jd, i);
    }
    assert jd[..i] == jd;
  }

  /** The rules of `check_formatting`, applied to one resume: the score starts
      at 100 and every rule that fires records its issue and takes off its
      points; the messages are those of the recorded issues, in order. */
  method CheckResumeFormatting(r: Resume) returns (score: int, issues: seq<string>)
    ensures issues == Messages(FormatIssues(r))
    ensures score == 100 - TotalDeduction(FormatIssues(r))
    ensures 30 <= score <= 100
  {
    var raised: seq<FormatIssue> := [];
    score := 100;
    // Contact information.
    if r.email == "" {
      score, raised := score - 10, raised + [MissingEmail];
    }
    assert raised == Flag(r.email == "", MissingEmail);
    assert score == 100 - (if r.email == "" then 10 else 0);
    ghost var upTo, before := raised, score;
    if r.phone == "" {
      score, raised := score - 5, raised + [MissingPhone];
    }
    assert raised == upTo + Flag(r.phone == "", MissingPhone);
    assert score == before - (if r.phone == "" then 5 else 0);
    // Sections.
    upTo, before := raised, score;
    if r.experiences == [] {
      score, raised := score - 20, raised + [NoExperience];
    }
    assert raised == upTo + Flag(r.experiences == [], NoExperience);
    assert score == before - (if r.experiences == [] then 20 else 0);
    upTo, before := raised, score;
    if r.skills == [] {
      score, raised := score - 15, raised + [NoSkills];
    }
    assert raised == upTo + Flag(r.skills == [], NoSkills);
    assert score == before - (if r.skills == [] then 15 else 0);
    // Measurable achievements: the first experience whose description has a digit.
    var hasMetrics := MentionsNumbers(r.experiences);
    upTo, before := raised, score;
    if !hasMetrics {
      score, raised := score - 10, raised + [NoMetrics];
    }
    assert raised == upTo + Flag(!HasMetrics(r), NoMetrics);
    assert score == before - (if !HasMetrics(r) then 10 else 0);
    // Summary length.
    upTo, before := raised, score;
    if r.summary != "" {
      var wordCount := |Split(r.summary)|;
      if wordCount < MinSummaryWords {
        score, raised := score - 5, raised + [SummaryTooShort];
        assert SummaryIssues(r.summary) == [SummaryTooShort];
      } else if wordCount > MaxSummaryWords {
        score, raised := score - 5, raised + [SummaryTooLong];
        assert SummaryIssues(r.summary) == [SummaryTooLong];
      } else {
        assert SummaryIssues(r.summary) == [];
      }
    } else {
      score, raised := score - 10, raised + [MissingSummary];
      assert SummaryIssues(r.summary) == [MissingSummary];
    }
    assert raised == upTo + SummaryIssues(r.summary);
    assert score == before - SummaryPoints(r.summary);
    assert raised == FormatIssues(r);
    DeductionTable(r);
    issues := Messages(raised);
    score := if score < 0 then 0 else score;
  }

  /** The `has_metrics` loop of `check_formatting`: experiences are visited in
      order until one whose description contains a digit. */
  method MentionsNumbers(experiences: seq<Experience>) returns (found: bool)
    ensures found <==> exists k :: 0 <= k < |experiences| && HasDigit(experiences[k].description)
  {
    found := false;
    var k := 0;
    while k < |experiences|
      invariant 0 <= k <= |experiences|
      invariant !found && forall j :: 0 <= j < k ==> !HasDigit(experiences[j].description)
    {
      if HasDigit(experiences[k].description) {
        return true;
      }
      k := k + 1;
    }
  }

  /** `has_measurable_achievements` of `analyze`: whether the joined, lower-cased
      format issues leave out the metrics advice, which is exactly whether some
      experience description holds a digit. */
  method MeasurableAchievements(r: Resume, issues: seq<string>) returns (measurable: bool)
    requires issues == Messages(FormatIssues(r))
    ensures measurable <==> HasMetrics(r)
  {
    measurable := !MentionsMetricsAdvice(issues);
    MeasurableFlag(r);
  }

  /** The `for issue in format_issues` loop of `generate_suggestions`: one
      formatting suggestion per issue, in order. */
  method AppendIssueSuggestions(suggestions: seq<Suggestion>, issues: seq<string>)
    returns (extended: seq<Suggestion>)
    ensures extended == suggestions + FormattingSuggestions(issues)
  {
    extended := suggestions;
    var i := 0;
    while i < |issues|
      invariant 0 <= i <= |issues|
      invariant extended == suggestions + FormattingSuggestions(issues[..i])
    {
      assert issues[..i + 1][..i] == issues[..i];
      extended := extended + [FormattingSuggestion(issues[i])];
      i := i + 1;
    }
    assert issues[..i] == issues;
  }

  /** The `for skill in required_skills` loop of `check_required_skills`: each
      required skill, visited in no particular order, goes to the found list when
      `text` contains it and to the missing list otherwise, once. */
  method PartitionSkills(required: set<string>, text: string) returns (found: seq<string>, missing: seq<string>)
    ensures forall s :: s in found <==> s in required && Contains(text, s)
    ensures forall s :: s in missing <==> s in required && !Contains(text, s)
    ensures |found| == |set s | s in required && Contains(text, s)|
    ensures |found| + |missing| == |required|
  {
    found, missing := [], [];
    var remaining := required;
    ghost var foundSet: set<string> := {};
    while remaining != {}
      invariant remaining <= required
      invariant foundSet == set s | s in required - remaining && Contains(text, s)
      invariant forall s :: s in found <==> s in foundSet
      invariant forall s :: s in missing <==> s in required - remaining && !Contains(text, s)
      invariant |found| == |foundSet|
      invariant |found| + |missing| + |remaining| == |required|
      decreases |remaining|
    {
      var skill :| skill in remaining;
      if Contains(text, skill) {
        found := found + [skill];
        foundSet := foundSet + {skill};
      } else {
        missing := missing + [skill];
      }
      remaining := remaining - {skill};
    }
    assert required - remaining == required;
  }

  /** `A <= B` implies `|A| <= |B|`. */
  lemma {:induction false} SubsetCardinality<T>(a: set<T>, b: set<T>)
    requires a <= b
    ensures |a| <= |b|
    decreases b
  {
    if a != {} {
      var x :| x in a;
      SubsetCardinality(a - {x}, b - {x});
    }
  }

  /** What `analyze` stores. */
  datatype Analysis = Analysis(
    jobDescription: string,
    score: int,
    matchedKeywords: seq<string>,
    missingKeywords: seq<string>,
    keywordDensity: map<string, Density>,
    suggestions: seq<Suggestion>,
    hasContactInfo: bool,
    hasClearSections: bool,
    hasMeasurableAchievements: bool,
    readabilityScore: int)

  datatype Breakdown = Breakdown(keywordMatch: int, skillMatch: int, formatting: int, readability: int)

  /** What `get_detailed_report` returns. */
  datatype Report = Report(
    overallScore: int,
    breakdown: Breakdown,
    matchedKeywords: seq<string>,
    missingKeywords: seq<string>,
    foundSkills: seq<string>,
    missingSkills: seq<string>,
    formatIssues: seq<string>,
    suggestions: seq<Suggestion>)

  /** The report shows this many of the (already cut) keyword lists. */
  const ReportListLimit: nat := 10

  class ATSAnalyzer {
    const resume: Resume
    const jobDescription: string
    const resumeText: string

    constructor(resume: Resume, jobDescription: string)
      ensures this.resume == resume
      ensures this.jobDescription == Lower(jobDescription)
      ensures this.resumeText == Lower(Join(NonEmpty(ResumeParts(resume)), " "))
    {
      this.resume := resume;
      this.jobDescription := Lower(jobDescription);
      var text := ExtractResumeText(resume);
      this.resumeText := Lower(text);
    }

    // Specification of the scores, in terms of the two texts and the resume.

    function JdKeywords(): seq<Freq> { ExtractKeywords(jobDescription, MinLength, MaxKeywords) }
    function ResumeKeywords(): seq<Freq> { ExtractKeywords(resumeText, MinLength, MaxKeywords) }

    function KeywordScore(): (score: nat)
      ensures score <= 100
    {
      KeywordMapShape(jobDescription);
      MatchScoreRange(JdKeywords(), ResumeKeywords());
      MatchScore(JdKeywords(), ResumeKeywords())
    }

    function KeywordDensity(): map<string, Density> {
      KeywordMapShape(jobDescription);
      DensityMap(JdKeywords(), ResumeKeywords())
    }

    function RequiredSkillSet(): set<string> { RequiredSkills(jobDescription) }

    function FoundSkillSet(): (found: set<string>)
      ensures found <= RequiredSkillSet()
    {
      set s | s in RequiredSkillSet() && Contains(resumeText, s)
    }

    function SkillScore(): (score: nat)
      ensures score <= 100
    {
      if RequiredSkillSet() == {} then 100
      else
        SubsetCardinality(FoundSkillSet(), RequiredSkillSet());
        PercentInRange(|FoundSkillSet()|, |RequiredSkillSet()|);
        RoundHalfEven(100 * |FoundSkillSet()|, |RequiredSkillSet()|)
    }

    function FormatScore(): int {
      var raw := 100 - TotalDeduction(FormatIssues(resume));
      if raw < 0 then 0 else raw
    }

    function Overall(): int {
      OverallScore(KeywordScore(), SkillScore(), FormatScore(), ReadabilityScore(resumeText))
    }

    /** A list of the required skills the resume text lacks, each once. */
    ghost predicate IsMissingSkillList(missing: seq<string>) {
      && (forall s :: s in missing <==> s in RequiredSkillSet() && !Contains(resumeText, s))
      && |missing| + |FoundSkillSet()| == |RequiredSkillSet()|
    }

    // The operations.

    /** `calculate_keyword_match`. */
    method CalculateKeywordMatch() returns (score: nat, matched: seq<string>, missing: seq<string>,
                                           density: map<string, Density>)
      ensures score == KeywordScore() && score <= 100
      ensures matched == Take(MatchedKeys(JdKeywords(), ResumeKeywords()), ListLimit)
      ensures missing == Take(MissingKeys(JdKeywords(), ResumeKeywords()), ListLimit)
      ensures density == KeywordDensity()
    {
      var jd := ExtractKeywords(jobDescription, MinLength, MaxKeywords);
      var res := ExtractKeywords(resumeText, MinLength, MaxKeywords);
      KeywordMapShape(jobDescription);
      MatchScoreRange(jd, res);
      if jd == [] {
        return 0, [], [], map[];
      }
      var allMatched, allMissing;
      allMatched, allMissing, density := CompareKeywordMaps(jd, res);
      score := RoundHalfEven(100 * |allMatched|, |jd|);
      matched, missing := Take(allMatched, ListLimit), Take(allMissing, ListLimit);
    }

    /** `check_required_skills`: the required skills are visited in no particular
        order and each is looked for as a substring of the resume text. */
    method CheckRequiredSkills() returns (score: nat, found: seq<string>, missing: seq<string>)
      ensures score == SkillScore() && score <= 100
      ensures forall s :: s in found <==> s in FoundSkillSet()
      ensures |found| == |FoundSkillSet()|
      ensures IsMissingSkillList(missing)
      ensures RequiredSkillSet() == {} ==> found == [] && missing == []
    {
      var required := RequiredSkills(jobDescription);
      found, missing := PartitionSkills(required, resumeText);
      if required == {} {
        return 100, found, missing;
      }
      PercentInRange(|found|, |required|);
      score := RoundHalfEven(100 * |found|, |required|);
    }

    /** `check_formatting`. */
    method CheckFormatting() returns (score: int, issues: seq<string>)
      ensures issues == Messages(FormatIssues(resume))
      ensures score == FormatScore() == 100 - TotalDeduction(FormatIssues(resume))
      ensures 30 <= score <= 100
    {
      score, issues := CheckResumeFormatting(resume);
    }

    /** `generate_suggestions`. */
    method GenerateSuggestions(keywordScore: nat, skillScore: nat, formatScore: int,
                               missingKeywords: seq<string>, missingSkills: seq<string>,
                               formatIssues: seq<string>) returns (suggestions: seq<Suggestion>)
      ensures suggestions == SuggestionsFor(keywordScore, skillScore, formatScore,
                                            missingKeywords, missingSkills, formatIssues)
    {
      suggestions := KeywordSuggestions(keywordScore, missingKeywords)
        + SkillSuggestions(skillScore, missingSkills);
      suggestions := AppendIssueSuggestions(suggestions, formatIssues);
      if suggestions == [] {
        suggestions := [GeneralSuggestion];
      }
    }

    /** `analyze`, without storing the result or updating the resume. The ghost
        `missingSkills` names the missing-skill list the suggestions were built
        from; its order is the iteration order of a set, which is not modelled. */
    method Analyze() returns (a: Analysis, ghost missingSkills: seq<string>)
      ensures a.jobDescription == jobDescription
      ensures a.score == Overall() && 0 <= a.score <= 100
      ensures a.matchedKeywords == Take(MatchedKeys(JdKeywords(), ResumeKeywords()), ListLimit)
      ensures a.missingKeywords == Take(MissingKeys(JdKeywords(), ResumeKeywords()), ListLimit)
      ensures a.keywordDensity == KeywordDensity()
      ensures a.hasContactInfo <==> resume.email != "" && resume.phone != ""
      ensures a.hasClearSections <==> resume.experiences != [] && resume.skills != []
      ensures a.hasMeasurableAchievements <==> HasMetrics(resume)
      ensures a.readabilityScore == ReadabilityScore(resumeText)
      ensures IsMissingSkillList(missingSkills)
      ensures a.suggestions == SuggestionsFor(KeywordScore(), SkillScore(), FormatScore(),
                                              a.missingKeywords, missingSkills, Messages(FormatIssues(resume)))
    {
      var keywordScore, matched, missingKw, density := CalculateKeywordMatch();
      var skillScore, foundSkills, missing := CheckRequiredSkills();
      missingSkills := missing;
      var formatScore, formatIssues := CheckFormatting();
      var readability := ReadabilityScore(resumeText);
      ReadabilityValues(resumeText);
      var overall := OverallScore(keywordScore, skillScore, formatScore, readability);
      OverallScoreRange(keywordScore, skillScore, formatScore, readability);
      var suggestions := GenerateSuggestions(keywordScore, skillScore, formatScore,
                                             missingKw, missing, formatIssues);
      var measurable := MeasurableAchievements(resume, formatIssues);
      a := Analysis(jobDescription, overall, matched, missingKw, density, suggestions,
                    resume.email != "" && resume.phone != "",
                    resume.experiences != [] && resume.skills != [],
                    measurable, readability);
    }

    /** `get_detailed_report`. */
    method GetDetailedReport() returns (r: Report)
      ensures r.overallScore == Overall() && 0 <= r.overallScore <= 100
      ensures r.breakdown == Breakdown(KeywordScore(), SkillScore(), FormatScore(), ReadabilityScore(resumeText))
      ensures r.matchedKeywords == Take(MatchedKeys(JdKeywords(), ResumeKeywords()), ReportListLimit)
      ensures r.missingKeywords == Take(MissingKeys(JdKeywords(), ResumeKeywords()), ReportListLimit)
      ensures forall s :: s in r.foundSkills <==> s in FoundSkillSet()
      ensures |r.foundSkills| == |FoundSkillSet()|
      ensures IsMissingSkillList(r.missingSkills)
      ensures r.formatIssues == Messages(FormatIssues(resume))
      ensures r.suggestions == SuggestionsFor(KeywordScore(), SkillScore(), FormatScore(),
                                              Take(MissingKeys(JdKeywords(), ResumeKeywords()), ListLimit),
                                              r.missingSkills, r.formatIssues)
    {
      var keywordScore, matched, missingKw, density := CalculateKeywordMatch();
      var skillScore, foundSkills, missingSkills := CheckRequiredSkills();
      var formatScore, formatIssues := CheckFormatting();
      var readability := ReadabilityScore(resumeText);
      ReadabilityValues(resumeText);
      OverallScoreRange(keywordScore, skillScore, formatScore, readability);
      var suggestions := GenerateSuggestions(keywordScore, skillScore, formatScore,
                                             missingKw, missingSkills, formatIssues);
      TakeTake(MatchedKeys(JdKeywords(), ResumeKeywords()), ListLimit, ReportListLimit);
      TakeTake(MissingKeys(JdKeywords(), ResumeKeywords()), ListLimit, ReportListLimit);
      r := Report(
        OverallScore(keywordScore, skillScore, formatScore, readability),
        Breakdown(keywordScore, skillScore, formatScore, readability),
        Take(matched, ReportListLimit), Take(missingKw, ReportListLimit),
        foundSkills, missingSkills, formatIssues, suggestions);
    }
  }
}
