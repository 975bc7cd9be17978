/** The required-skill extraction of the analyzer: six fixed alternations of
    skill names, each searched in the lower-cased job description between word
    boundaries, with `re.findall`'s left-to-right, non-overlapping scan. */
module Skills {
  import opened Options
  import opened Text

  // The six alternations, alternatives in the order they are written; the
  // optional dot of `node\.?js` is spelt out as its two literal forms, the
  // dotted one first because `\.?` is greedy.
  const Languages: seq<string> :=
    ["python", "java", "javascript", "react", "angular", "vue", "django", "flask", "node.js", "nodejs"]
  const Databases: seq<string> :=
    ["sql", "mysql", "postgresql", "mongodb", "redis", "elasticsearch"]
  const Infrastructure: seq<string> :=
    ["aws", "azure", "gcp", "docker", "kubernetes", "jenkins", "git"]
  const WebAndSystems: seq<string> :=
    ["html", "css", "typescript", "go", "rust", "php", "ruby", "swift", "kotlin"]
  const DataSkills: seq<string> :=
    ["machine learning", "ml", "ai", "data science", "analytics"]
  const Practices: seq<string> :=
    ["agile", "scrum", "devops", "ci/cd", "tdd", "rest api", "graphql"]

  const SkillPatterns: seq<seq<string>> :=
    [Languages, Databases, Infrastructure, WebAndSystems, DataSkills, Practices]

  /** The literals of all six alternations, as a set. */
  const SkillNames: set<string> := set k, l | 0 <= k < |SkillPatterns| && l in SkillPatterns[k] :: l

  /** Every literal of every alternation. */
  predicate IsSkillLiteral(s: string) {
    exists k :: 0 <= k < |SkillPatterns| && s in SkillPatterns[k]
  }

  predicate NonEmptyLiterals(alts: seq<string>) {
    forall l :: l in alts ==> l != ""
  }

  /** `\b` at position `k` of `s`: exactly one of the characters around it is a
      word character (outside the string counts as a non-word character). */
  predicate Boundary(s: string, k: int)
    requires 0 <= k <= |s|
  {
    (k > 0 && IsWordChar(s[k - 1])) != (k < |s| && IsWordChar(s[k]))
  }

  /** `\b(l)\b` matches at position `i`. */
  predicate WholeWordAt(s: string, l: string, i: int) {
    OccursAt(s, l, i) && Boundary(s, i) && Boundary(s, i + |l|)
  }

  /** The alternative the regular expression engine settles on at position `i`:
      the first one, in written order, that matches with both boundaries. */
  function MatchAt(s: string, alts: seq<string>, i: int): (r: Option<string>)
    ensures r.Some? ==> r.value in alts && WholeWordAt(s, r.value, i)
    ensures r.None? ==> forall l :: l in alts ==> !WholeWordAt(s, l, i)
  {
    if alts == [] then None
    else if WholeWordAt(s, alts[0], i) then Some(alts[0])
    else MatchAt(s, alts[1..], i)
  }

  /** `re.findall` of one alternation from position `i` on: after a match the
      scan resumes where the match ended, otherwise one character further. Every
      match is one of the alternatives, and since each one consumes at least one
      character there are no more matches than characters left. */
  function FindAll(s: string, alts: seq<string>, i: nat): (found: seq<string>)
    requires NonEmptyLiterals(alts)
    ensures forall l :: l in found ==> l in alts
    ensures i <= |s| ==> |found| <= |s| - i
    decreases |s| + 1 - i
  {
    if i > |s| then []
    else
      match MatchAt(s, alts, i)
      case Some(l) => [l] + FindAll(s, alts, i + |l|)
      case None => FindAll(s, alts, i + 1)
  }

  /** What `findall` reports is always one of the alternatives, found as a
      whole word at or after the start position. */
  lemma {:induction false} FindAllSound(s: string, alts: seq<string>, i: nat, l: string)
    requires NonEmptyLiterals(alts)
    requires l in FindAll(s, alts, i)
    ensures l in alts
    ensures exists j :: i <= j <= |s| && WholeWordAt(s, l, j)
    decreases |s| + 1 - i
  {
    if i <= |s| {
      match MatchAt(s, alts, i)
      case Some(m) =>
        if l != m {
          FindAllSound(s, alts, i + |m|, l);
        }
      case None =>
        FindAllSound(s, alts, i + 1, l);
    }
  }

  predicate AllNonEmpty(patterns: seq<seq<string>>) {
    forall k :: 0 <= k < |patterns| ==> NonEmptyLiterals(patterns[k])
  }

  lemma SkillPatternsAllNonEmpty()
    ensures AllNonEmpty(SkillPatterns)
  {
  }

  /** Everything a list of searches reports, as a set. */
  function FindAllEach(s: string, patterns: seq<seq<string>>): (r: set<string>)
    requires AllNonEmpty(patterns)
    ensures forall l :: l in r ==> exists k :: 0 <= k < |patterns| && l in patterns[k]
  {
    set k, l | 0 <= k < |patterns| && l in FindAll(s, patterns[k], 0) :: l
  }

  lemma FindAllEachSound(s: string, patterns: seq<seq<string>>, l: string)
    requires AllNonEmpty(patterns)
    requires l in FindAllEach(s, patterns)
    ensures exists k :: 0 <= k < |patterns| && l in patterns[k]
    ensures exists j :: 0 <= j <= |s| && WholeWordAt(s, l, j)
  {
    var k :| 0 <= k < |patterns| && l in FindAll(s, patterns[k], 0);
    FindAllSound(s, patterns[k], 0, l);
  }

  /** `_extract_required_skills`: everything the six searches report, as a set,
      since `list(set(...))` keeps no order. Matches are already lower-case (the
      job description is lower-cased and every alternative is written in lower
      case), so the final `.lower()` leaves them unchanged. */
  function RequiredSkills(jd: string): (r: set<string>)
    ensures r <= SkillNames
  {
    SkillPatternsAllNonEmpty();
    FindAllEach(jd, SkillPatterns)
  }

  /** Each required skill is one of the fixed skill names and occurs in the job
      description as a whole word. */
  lemma RequiredSkillsSound(jd: string, l: string)
    requires l in RequiredSkills(jd)
    ensures IsSkillLiteral(l)
    ensures exists j :: 0 <= j <= |jd| && WholeWordAt(jd, l, j)
  {
    SkillPatternsAllNonEmpty();
    FindAllEachSound(jd, SkillPatterns, l);
  }

  /** A job description without any word character names no skill. */
  lemma {:induction false} FindAllNoWords(s: string, alts: seq<string>, i: nat)
    requires NonEmptyLiterals(alts)
    requires forall k :: 0 <= k < |s| ==> !IsWordChar(s[k])
    ensures FindAll(s, alts, i) == []
    decreases |s| + 1 - i
  {
    if i <= |s| {
      match MatchAt(s, alts, i)
      case Some(l) =>
        assert false;
      case None =>
        FindAllNoWords(s, alts, i + 1);
    }
  }
}
