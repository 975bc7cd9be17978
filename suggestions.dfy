/** The improvement suggestions the analyzer derives from its scores: at most one
    about keywords, at most one about skills, one per formatting issue, and a
    general one when there is nothing else to say. */
module Suggestions {
  import opened Text
  import opened Numbers

  datatype Suggestion = Suggestion(category: string, severity: string, message: string, action: string)

  const KeywordsCategory: string := "Keywords"
  const SkillsCategory: string := "Skills"
  const FormattingCategory: string := "Formatting"
  const GeneralCategory: string := "General"

  /** The keyword rule: high severity under 60 %, medium under 80 %. */
  function KeywordSuggestions(keywordScore: nat, missingKeywords: seq<string>): (r: seq<Suggestion>)
    ensures |r| <= 1 && forall x :: x in r ==> x.category == KeywordsCategory
  {
    if keywordScore < 60 then
      [Suggestion(KeywordsCategory, "high",
         "Only " + NatToString(keywordScore) + "% keyword match. Add more relevant keywords from the job description.",
         "Focus on these missing keywords: " + Join(Take(missingKeywords, 5), ", "))]
    else if keywordScore < 80 then
      [Suggestion(KeywordsCategory, "medium",
         "Good keyword coverage, but room for improvement.",
         "Consider adding: " + Join(Take(missingKeywords, 3), ", "))]
    else []
  }

  /** The skill rule: a skill score under 70 with at least one missing skill. */
  function SkillSuggestions(skillScore: nat, missingSkills: seq<string>): (r: seq<Suggestion>)
    ensures |r| <= 1 && forall x :: x in r ==> x.category == SkillsCategory
  {
    if skillScore < 70 && missingSkills != [] then
      [Suggestion(SkillsCategory, "high",
         "Missing " + NatToString(|missingSkills|) + " required technical skills.",
         "Add these skills if you have them: " + Join(Take(missingSkills, 5), ", "))]
    else []
  }

  function FormattingSuggestion(issue: string): Suggestion {
    Suggestion(FormattingCategory, "medium", issue, "Update your resume to address this issue.")
  }

  /** One formatting suggestion per issue, in the issues' order. */
  function FormattingSuggestions(issues: seq<string>): (r: seq<Suggestion>)
    ensures |r| == |issues|
  {
    if issues == [] then [] else FormattingSuggestions(issues[..|issues| - 1]) + [FormattingSuggestion(issues[|issues| - 1])]
  }

  const GeneralSuggestion: Suggestion :=
    Suggestion(GeneralCategory, "low",
      "Your resume looks great! Continue refining based on specific job requirements.",
      "Review and update before each application.")

  /** `generate_suggestions`: keyword, skill and formatting suggestions in that
      order, or the general one alone when there are none. The formatting score
      is passed in but plays no part. */
  function SuggestionsFor(keywordScore: nat, skillScore: nat, formatScore: int,
                          missingKeywords: seq<string>, missingSkills: seq<string>,
                          issues: seq<string>): (r: seq<Suggestion>)
    ensures r != [] && |issues| <= |r| <= |issues| + 2
  {
    var found := KeywordSuggestions(keywordScore, missingKeywords)
      + SkillSuggestions(skillScore, missingSkills)
      + FormattingSuggestions(issues);
    if found == [] then [GeneralSuggestion] else found
  }

  /** The suggestions of one category, in order. */
  function OfCategory(s: seq<Suggestion>, category: string): (r: seq<Suggestion>)
    ensures forall x :: x in r <==> x in s && x.category == category
  {
    if s == [] then []
    else (if s[0].category == category then [s[0]] else []) + OfCategory(s[1..], category)
  }

  lemma {:induction false} OfCategoryAppend(a: seq<Suggestion>, b: seq<Suggestion>, category: string)
    ensures OfCategory(a + b, category) == OfCategory(a, category) + OfCategory(b, category)
  {
    if a == [] {
      assert a + b == b;
    } else {
      assert (a + b)[1..] == a[1..] + b;
      OfCategoryAppend(a[1..], b, category);
    }
  }

  lemma {:induction false} FormattingSuggestionsCategory(issues: seq<string>, category: string)
    ensures OfCategory(FormattingSuggestions(issues), category)
         == if category == FormattingCategory then FormattingSuggestions(issues) else []
  {
    if issues != [] {
      var init := issues[..|issues| - 1];
      FormattingSuggestionsCategory(init, category);
      OfCategoryAppend(FormattingSuggestions(init), [FormattingSuggestion(issues[|issues| - 1])], category);
    }
  }

  /** The formatting suggestions repeat the issues, in order, at medium severity. */
  lemma {:induction false} FormattingSuggestionsMirrorIssues(issues: seq<string>, k: nat)
    requires k < |issues|
    ensures FormattingSuggestions(issues)[k].message == issues[k]
    ensures FormattingSuggestions(issues)[k].severity == "medium"
  {
    if k < |issues| - 1 {
      FormattingSuggestionsMirrorIssues(issues[..|issues| - 1], k);
    }
  }

  /** The keyword and skill rules each produce suggestions of their own category only. */
  lemma RuleCategories(kw: nat, sk: nat, mk: seq<string>, ms: seq<string>, category: string)
    ensures OfCategory(KeywordSuggestions(kw, mk), category)
         == if category == KeywordsCategory then KeywordSuggestions(kw, mk) else []
    ensures OfCategory(SkillSuggestions(sk, ms), category)
         == if category == SkillsCategory then SkillSuggestions(sk, ms) else []
  {
    OfCategoryUniform(KeywordSuggestions(kw, mk), KeywordsCategory, category);
    OfCategoryUniform(SkillSuggestions(sk, ms), SkillsCategory, category);
  }

  /** Selecting from suggestions that all share one category keeps all or nothing. */
  lemma {:induction false} OfCategoryUniform(s: seq<Suggestion>, c: string, category: string)
    requires forall x :: x in s ==> x.category == c
    ensures OfCategory(s, category) == if c == category then s else []
  {
    if s != [] {
      assert s[0] in s;
      OfCategoryUniform(s[1..], c, category);
      assert s == [s[0]] + s[1..];
    }
  }

  /** Splitting the result by category: every category other than the general
      one is produced by exactly one rule. */
  lemma SuggestionsByCategory(kw: nat, sk: nat, fmt: int, mk: seq<string>, ms: seq<string>, issues: seq<string>, category: string)
    requires category != GeneralCategory
    ensures OfCategory(SuggestionsFor(kw, sk, fmt, mk, ms, issues), category)
         == (if category == KeywordsCategory then KeywordSuggestions(kw, mk) else [])
          + (if category == SkillsCategory then SkillSuggestions(sk, ms) else [])
          + (if category == FormattingCategory then FormattingSuggestions(issues) else [])
  {
    var a, b, c := KeywordSuggestions(kw, mk), SkillSuggestions(sk, ms), FormattingSuggestions(issues);
    OfCategoryAppend(a + b, c, category);
    OfCategoryAppend(a, b, category);
    RuleCategories(kw, sk, mk, ms, category);
    FormattingSuggestionsCategory(issues, category);
  }

  /** The list is never empty, and the general suggestion appears exactly when no
      rule produced anything, and then alone. */
  lemma SuggestionsGeneral(kw: nat, sk: nat, fmt: int, mk: seq<string>, ms: seq<string>, issues: seq<string>)
    ensures var r := SuggestionsFor(kw, sk, fmt, mk, ms, issues);
      && r != []
      && (GeneralSuggestion in r <==> kw >= 80 && !(sk < 70 && ms != []) && issues == [])
      && (GeneralSuggestion in r ==> r == [GeneralSuggestion])
  {
    var a, b, c := KeywordSuggestions(kw, mk), SkillSuggestions(sk, ms), FormattingSuggestions(issues);
    var r := SuggestionsFor(kw, sk, fmt, mk, ms, issues);
    if a + b + c != [] {
      assert OfCategory(r, GeneralCategory) == [] by {
        OfCategoryAppend(a + b, c, GeneralCategory);
        OfCategoryAppend(a, b, GeneralCategory);
        RuleCategories(kw, sk, mk, ms, GeneralCategory);
        FormattingSuggestionsCategory(issues, GeneralCategory);
      }
    }
  }

  /** The keyword rule on its own: nothing from 80 % on, otherwise one
      suggestion whose severity, message and action depend on the band. */
  lemma KeywordSuggestionShape(kw: nat, mk: seq<string>)
    ensures var k := KeywordSuggestions(kw, mk);
      && (k == [] <==> kw >= 80)
      && (k != [] ==> k[0].severity == (if kw < 60 then "high" else "medium"))
      && (k != [] ==> k[0].message == (if kw < 60
                                       then "Only " + NatToString(kw) + "% keyword match. Add more relevant keywords from the job description."
                                       else "Good keyword coverage, but room for improvement."))
      && (k != [] ==> k[0].action == (if kw < 60 then "Focus on these missing keywords: " else "Consider adding: ")
                                     + Join(Take(mk, if kw < 60 then 5 else 3), ", "))
  {
  }

  /** At most one keyword suggestion: high severity below 60 %, medium from 60 %
      up to 80 %, none from 80 % on; its message quotes the score in the high
      band, and its action lists the first five (high) or three (medium) missing
      keywords. */
  lemma KeywordSuggestionRule(kw: nat, sk: nat, fmt: int, mk: seq<string>, ms: seq<string>, issues: seq<string>)
    ensures var k := OfCategory(SuggestionsFor(kw, sk, fmt, mk, ms, issues), KeywordsCategory);
      && |k| <= 1
      && (k == [] <==> kw >= 80)
      && (k != [] ==> k[0].severity == (if kw < 60 then "high" else "medium"))
      && (k != [] ==> k[0].message == (if kw < 60
                                       then "Only " + NatToString(kw) + "% keyword match. Add more relevant keywords from the job description."
                                       else "Good keyword coverage, but room for improvement."))
      && (k != [] ==> k[0].action == (if kw < 60 then "Focus on these missing keywords: " else "Consider adding: ")
                                     + Join(Take(mk, if kw < 60 then 5 else 3), ", "))
  {
    SuggestionsByCategory(kw, sk, fmt, mk, ms, issues, KeywordsCategory);
    var k := KeywordSuggestions(kw, mk);
    assert k + [] + [] == k;
    KeywordSuggestionShape(kw, mk);
  }

  /** The skill rule on its own. */
  lemma SkillSuggestionShape(sk: nat, ms: seq<string>)
    ensures var k := SkillSuggestions(sk, ms);
      && (k != [] <==> sk < 70 && ms != [])
      && (k != [] ==> k[0].severity == "high"
                      && k[0].message == "Missing " + NatToString(|ms|) + " required technical skills."
                      && k[0].action == "Add these skills if you have them: " + Join(Take(ms, 5), ", "))
  {
  }

  /** A skill suggestion appears exactly when the skill score is under 70 and
      some skill is missing; it names how many are missing and lists the first
      five of them. */
  lemma SkillSuggestionRule(kw: nat, sk: nat, fmt: int, mk: seq<string>, ms: seq<string>, issues: seq<string>)
    ensures var k := OfCategory(SuggestionsFor(kw, sk, fmt, mk, ms, issues), SkillsCategory);
      && |k| <= 1
      && (k != [] <==> sk < 70 && ms != [])
      && (k != [] ==> k[0].severity == "high"
                      && k[0].message == "Missing " + NatToString(|ms|) + " required technical skills."
                      && k[0].action == "Add these skills if you have them: " + Join(Take(ms, 5), ", "))
  {
    SuggestionsByCategory(kw, sk, fmt, mk, ms, issues, SkillsCategory);
    var k := SkillSuggestions(sk, ms);
    assert [] + k + [] == k;
    SkillSuggestionShape(sk, ms);
  }

  /** Exactly one formatting suggestion per issue, in issue order, each at
      medium severity and carrying the issue as its message. */
  lemma FormattingSuggestionRule(kw: nat, sk: nat, fmt: int, mk: seq<string>, ms: seq<string>, issues: seq<string>, k: nat)
    requires k < |issues|
    ensures var f := OfCategory(SuggestionsFor(kw, sk, fmt, mk, ms, issues), FormattingCategory);
      && |f| == |issues|
      && f[k].message == issues[k]
      && f[k].severity == "medium"
  {
    SuggestionsByCategory(kw, sk, fmt, mk, ms, issues, FormattingCategory);
    FormattingSuggestionsMirrorIssues(issues, k);
  }
}
