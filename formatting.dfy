/** The formatting rules of the analyzer: which issues a resume has, in which
    order they are reported, and what each one costs out of a score of 100. */
module Formatting {
  import opened Text
  import opened ResumeData

  datatype FormatIssue =
    | MissingEmail
    | MissingPhone
    | NoExperience
    | NoSkills
    | NoMetrics
    | SummaryTooShort
    | SummaryTooLong
    | MissingSummary
  {
    /** The text the analyzer reports for the issue. */
    function Message(): string {
      match this
      case MissingEmail => "Missing email address"
      case MissingPhone => "Missing phone number"
      case NoExperience => "No work experience listed"
      case NoSkills => "No skills listed"
      case NoMetrics => "Add " + MetricsPhrase + " (numbers, percentages, metrics)"
      case SummaryTooShort => SummaryLabel + "is too short" + SummaryAim
      case SummaryTooLong => SummaryLabel + "is too long" + SummaryAim
      case MissingSummary => "Missing professional summary"
    }

    /** Points taken off the formatting score. */
    function Deduction(): nat {
      match this
      case MissingEmail => 10
      case MissingPhone => 5
      case NoExperience => 20
      case NoSkills => 15
      case NoMetrics => 10
      case SummaryTooShort => 5
      case SummaryTooLong => 5
      case MissingSummary => 10
    }

    /** Position of the rule that raises the issue; the three summary issues
        come from one rule. */
    function Rank(): nat {
      match this
      case MissingEmail => 0
      case MissingPhone => 1
      case NoExperience => 2
      case NoSkills => 3
      case NoMetrics => 4
      case _ => 5
    }

    predicate IsSummaryIssue() {
      SummaryTooShort? || SummaryTooLong? || MissingSummary?
    }
  }

  /** The common beginning and end of the two summary-length messages. */
  const SummaryLabel: string := "Professional summary "
  const SummaryAim: string := " (aim for 50-100 words)"

  /** The phrase `analyze` looks for to decide whether achievements are measurable. */
  const MetricsPhrase: string := "quantifiable achievements"

  /** `re.search(r'\d+[%$]?|\d+\+', s)` succeeds: both alternatives start with
      one or more digits and the rest is optional or unreachable without a
      digit, so a match exists exactly when `s` has a digit. */
  predicate HasDigit(s: string) {
    exists i :: 0 <= i < |s| && IsDigit(s[i])
  }

  /** Some experience description mentions a number. */
  predicate HasMetrics(r: Resume) {
    exists k :: 0 <= k < |r.experiences| && HasDigit(r.experiences[k].description)
  }

  const MinSummaryWords: nat := 20
  const MaxSummaryWords: nat := 150

  /** The issue `i` when its rule fires, nothing otherwise. */
  function Flag(fires: bool, i: FormatIssue): (r: seq<FormatIssue>)
    ensures forall x :: x in r <==> fires && x == i
    ensures |r| <= 1
  {
    if fires then [i] else []
  }

  /** The summary rule: missing, too short or too long by its whitespace-separated words. */
  function SummaryIssues(summary: string): (r: seq<FormatIssue>)
    ensures |r| <= 1
    ensures forall x :: x in r ==> x.IsSummaryIssue()
    ensures MissingSummary in r <==> summary == ""
    ensures SummaryTooShort in r <==> summary != "" && |Split(summary)| < MinSummaryWords
    ensures SummaryTooLong in r <==> summary != "" && |Split(summary)| > MaxSummaryWords
  {
    if summary == "" then [MissingSummary]
    else
      var words := |Split(summary)|;
      if words < MinSummaryWords then [SummaryTooShort]
      else if words > MaxSummaryWords then [SummaryTooLong]
      else []
  }

  /** The issues of a resume in the order the rules are applied: e-mail, phone,
      experience, skills, metrics, summary. */
  function FormatIssues(r: Resume): (issues: seq<FormatIssue>)
    ensures |issues| <= 6
  {
    Flag(r.email == "", MissingEmail)
    + Flag(r.phone == "", MissingPhone)
    + Flag(r.experiences == [], NoExperience)
    + Flag(r.skills == [], NoSkills)
    + Flag(!HasMetrics(r), NoMetrics)
    + SummaryIssues(r.summary)
  }

  function Messages(issues: seq<FormatIssue>): (ms: seq<string>)
    ensures |ms| == |issues|
    ensures forall k :: 0 <= k < |issues| ==> ms[k] == issues[k].Message()
  {
    if issues == [] then [] else [issues[0].Message()] + Messages(issues[1..])
  }

  function TotalDeduction(issues: seq<FormatIssue>): nat {
    if issues == [] then 0 else issues[0].Deduction() + TotalDeduction(issues[1..])
  }

  lemma {:induction false} TotalDeductionAppend(a: seq<FormatIssue>, b: seq<FormatIssue>)
    ensures TotalDeduction(a + b) == TotalDeduction(a) + TotalDeduction(b)
  {
    if a == [] {
      assert a + b == b;
    } else {
      assert (a + b)[1..] == a[1..] + b;
      TotalDeductionAppend(a[1..], b);
    }
  }

  /** Ranks strictly increase along `s`. */
  predicate StrictlyRanked(s: seq<FormatIssue>) {
    forall i, j :: 0 <= i < j < |s| ==> s[i].Rank() < s[j].Rank()
  }

  /** Appending at most one issue of rank `k` behind issues of lower rank keeps
      the ranks strictly increasing. */
  lemma RankedAppend(s: seq<FormatIssue>, t: seq<FormatIssue>, k: nat)
    requires StrictlyRanked(s) && forall x :: x in s ==> x.Rank() < k
    requires |t| <= 1 && forall x :: x in t ==> x.Rank() == k
    ensures StrictlyRanked(s + t) && forall x :: x in s + t ==> x.Rank() < k + 1
  {
    forall i, j | 0 <= i < j < |s + t| ensures (s + t)[i].Rank() < (s + t)[j].Rank() {
      assert (s + t)[i] == s[i];
      if j >= |s| {
        assert (s + t)[j] == t[j - |s|];
        assert s[i] in s && t[j - |s|] in t;
      } else {
        assert (s + t)[j] == s[j];
      }
    }
  }

  /** `t` holds at most one issue, of rank `k`. */
  predicate AtRank(t: seq<FormatIssue>, k: nat) {
    |t| <= 1 && forall x :: x in t ==> x.Rank() == k
  }

  /** Six parts of ranks 0 to 5, in that order, concatenate to a ranked list. */
  lemma RankedParts(a: seq<FormatIssue>, b: seq<FormatIssue>, c: seq<FormatIssue>,
                    d: seq<FormatIssue>, e: seq<FormatIssue>, f: seq<FormatIssue>)
    requires AtRank(a, 0) && AtRank(b, 1) && AtRank(c, 2)
    requires AtRank(d, 3) && AtRank(e, 4) && AtRank(f, 5)
    ensures StrictlyRanked(a + b + c + d + e + f)
  {
    RankedAppend([], a, 0);
    assert [] + a == a;
    RankedAppend(a, b, 1);
    RankedAppend(a + b, c, 2);
    RankedAppend(a + b + c, d, 3);
    RankedAppend(a + b + c + d, e, 4);
    RankedAppend(a + b + c + d + e, f, 5);
  }

  lemma FormatIssuesRanked(r: Resume)
    ensures StrictlyRanked(FormatIssues(r))
  {
    var a := Flag(r.email == "", MissingEmail);
    var b := Flag(r.phone == "", MissingPhone);
    var c := Flag(r.experiences == [], NoExperience);
    var d := Flag(r.skills == [], NoSkills);
    var e := Flag(!HasMetrics(r), NoMetrics);
    var f := SummaryIssues(r.summary);
    assert AtRank(f, 5);
    RankedParts(a, b, c, d, e, f);
  }

  /** Issues are reported in rule order, at most one per rule; in particular at
      most one of the three summary issues appears. */
  lemma FormatIssuesOrdered(r: Resume, i: nat, j: nat)
    requires i < j < |FormatIssues(r)|
    ensures FormatIssues(r)[i].Rank() < FormatIssues(r)[j].Rank()
  {
    FormatIssuesRanked(r);
  }

  lemma AtMostOneSummaryIssue(r: Resume, i: nat, j: nat)
    requires i < |FormatIssues(r)| && j < |FormatIssues(r)|
    requires FormatIssues(r)[i].IsSummaryIssue() && FormatIssues(r)[j].IsSummaryIssue()
    ensures i == j
  {
    var s := FormatIssues(r);
    SummaryRank(s[i]);
    SummaryRank(s[j]);
    if i != j {
      FormatIssuesRanked(r);
    }
  }

  lemma SummaryRank(x: FormatIssue)
    requires x.IsSummaryIssue()
    ensures x.Rank() == 5
  {
  }

  /** Membership in the issue list, rule by rule. */
  lemma FormatIssuesMember(r: Resume, x: FormatIssue)
    ensures x in FormatIssues(r) <==>
      || (x == MissingEmail && r.email == "")
      || (x == MissingPhone && r.phone == "")
      || (x == NoExperience && r.experiences == [])
      || (x == NoSkills && r.skills == [])
      || (x == NoMetrics && !HasMetrics(r))
      || x in SummaryIssues(r.summary)
  {
    var a := Flag(r.email == "", MissingEmail);
    var b := Flag(r.phone == "", MissingPhone);
    var c := Flag(r.experiences == [], NoExperience);
    var d := Flag(r.skills == [], NoSkills);
    var e := Flag(!HasMetrics(r), NoMetrics);
    var f := SummaryIssues(r.summary);
    assert FormatIssues(r) == a + b + c + d + e + f;
  }

  /** Each issue is reported exactly when its condition holds. */
  lemma FormatIssuesExactly(r: Resume)
    ensures MissingEmail in FormatIssues(r) <==> r.email == ""
    ensures MissingPhone in FormatIssues(r) <==> r.phone == ""
    ensures NoExperience in FormatIssues(r) <==> r.experiences == []
    ensures NoSkills in FormatIssues(r) <==> r.skills == []
    ensures NoMetrics in FormatIssues(r) <==> !HasMetrics(r)
    ensures MissingSummary in FormatIssues(r) <==> r.summary == ""
    ensures SummaryTooShort in FormatIssues(r) <==> r.summary != "" && |Split(r.summary)| < MinSummaryWords
    ensures SummaryTooLong in FormatIssues(r) <==> r.summary != "" && |Split(r.summary)| > MaxSummaryWords
  {
    FormatIssuesMember(r, MissingEmail);
    FormatIssuesMember(r, MissingPhone);
    FormatIssuesMember(r, NoExperience);
    FormatIssuesMember(r, NoSkills);
    FormatIssuesMember(r, NoMetrics);
    FormatIssuesMember(r, MissingSummary);
    FormatIssuesMember(r, SummaryTooShort);
    FormatIssuesMember(r, SummaryTooLong);
  }

  /** A summary of nothing but whitespace is present but has no words, so it is
      reported as too short. */
  lemma BlankSummaryTooShort(r: Resume)
    requires r.summary != "" && forall i :: 0 <= i < |r.summary| ==> IsSpace(r.summary[i])
    ensures SummaryTooShort in FormatIssues(r)
    ensures MissingSummary !in FormatIssues(r)
  {
    SplitEmpty(r.summary);
    FormatIssuesExactly(r);
  }

  /** The points the summary rule takes off: 10 when the summary is missing, 5
      when it is too short or too long. */
  function SummaryPoints(summary: string): nat {
    if summary == "" then 10
    else if |Split(summary)| < MinSummaryWords || |Split(summary)| > MaxSummaryWords then 5
    else 0
  }

  /** The total deduction is the sum of the points of the rules that fire. */
  lemma DeductionTable(r: Resume)
    ensures TotalDeduction(FormatIssues(r)) ==
      (if r.email == "" then 10 else 0)
      + (if r.phone == "" then 5 else 0)
      + (if r.experiences == [] then 20 else 0)
      + (if r.skills == [] then 15 else 0)
      + (if !HasMetrics(r) then 10 else 0)
      + SummaryPoints(r.summary)
  {
    var a := Flag(r.email == "", MissingEmail);
    var b := Flag(r.phone == "", MissingPhone);
    var c := Flag(r.experiences == [], NoExperience);
    var d := Flag(r.skills == [], NoSkills);
    var e := Flag(!HasMetrics(r), NoMetrics);
    var f := SummaryIssues(r.summary);
    TotalDeductionAppend(a, b);
    TotalDeductionAppend(a + b, c);
    TotalDeductionAppend(a + b + c, d);
    TotalDeductionAppend(a + b + c + d, e);
    TotalDeductionAppend(a + b + c + d + e, f);
    FlagDeduction(r.email == "", MissingEmail);
    FlagDeduction(r.phone == "", MissingPhone);
    FlagDeduction(r.experiences == [], NoExperience);
    FlagDeduction(r.skills == [], NoSkills);
    FlagDeduction(!HasMetrics(r), NoMetrics);
    SummaryDeduction(r.summary);
  }

  /** The deductions add up to at most 70, so the score never drops below 30
      and the floor at 0 never applies. */
  lemma DeductionBound(r: Resume)
    ensures TotalDeduction(FormatIssues(r)) <= 70
    ensures 30 <= 100 - TotalDeduction(FormatIssues(r)) <= 100
  {
    DeductionTable(r);
  }

  lemma FlagDeduction(fires: bool, i: FormatIssue)
    ensures TotalDeduction(Flag(fires, i)) == if fires then i.Deduction() else 0
  {
  }

  lemma SummaryDeduction(summary: string)
    ensures TotalDeduction(SummaryIssues(summary)) == SummaryPoints(summary)
  {
  }

  // ---------------------------------------------------------------------------
  // The measurable-achievements flag

  lemma MetricsPhraseIsLowerCase()
    ensures Lower(MetricsPhrase) == MetricsPhrase
  {
  }

  lemma MetricsMessageHasPhrase()
    ensures OccursAt(NoMetrics.Message(), MetricsPhrase, 4)
  {
    assert NoMetrics.Message()[4..4 + |MetricsPhrase|] == MetricsPhrase;
  }

  lemma MetricsMessageContainsPhrase()
    ensures Contains(Lower(NoMetrics.Message()), MetricsPhrase)
  {
    MetricsMessageHasPhrase();
    ContainsLower(NoMetrics.Message(), MetricsPhrase);
    MetricsPhraseIsLowerCase();
  }

  /** `s` has no letter `q` in either case. */
  predicate NoQ(s: string) { 'q' !in s && 'Q' !in s }

  lemma NoQAppend(a: string, b: string)
    requires NoQ(a) && NoQ(b)
    ensures NoQ(a + b)
  {
  }

  lemma NoQ3(a: string, b: string, c: string)
    requires NoQ(a) && NoQ(b) && NoQ(c)
    ensures NoQ(a + b + c)
  {
    NoQAppend(a, b);
    NoQAppend(a + b, c);
  }

  lemma ContactMessagesNoQ()
    ensures NoQ(MissingEmail.Message()) && NoQ(MissingPhone.Message())
  {
  }

  lemma SectionMessagesNoQ()
    ensures NoQ(NoExperience.Message()) && NoQ(NoSkills.Message())
  {
  }

  lemma SummaryLabelNoQ()
    ensures NoQ(SummaryLabel)
  {
  }

  lemma SummaryAimNoQ()
    ensures NoQ(SummaryAim)
  {
  }

  lemma ShortSummaryMessageNoQ()
    ensures NoQ(SummaryTooShort.Message())
  {
    SummaryLabelNoQ();
    SummaryAimNoQ();
    assert NoQ("is too short");
    NoQ3(SummaryLabel, "is too short", SummaryAim);
  }

  lemma LongSummaryMessageNoQ()
    ensures NoQ(SummaryTooLong.Message())
  {
    SummaryLabelNoQ();
    SummaryAimNoQ();
    assert NoQ("is too long");
    NoQ3(SummaryLabel, "is too long", SummaryAim);
  }

  lemma MissingSummaryMessageNoQ()
    ensures NoQ(MissingSummary.Message())
  {
  }

  /** No message but the metrics one has a `q` in either case. */
  lemma OnlyMetricsHasQ(i: FormatIssue)
    requires i != NoMetrics
    ensures NoQ(i.Message())
  {
    if i.MissingEmail? || i.MissingPhone? {
      ContactMessagesNoQ();
    } else if i.NoExperience? || i.NoSkills? {
      SectionMessagesNoQ();
    } else if i.SummaryTooShort? {
      ShortSummaryMessageNoQ();
    } else if i.SummaryTooLong? {
      LongSummaryMessageNoQ();
    } else {
      MissingSummaryMessageNoQ();
    }
  }

  /** `'quantifiable achievements' not in ' '.join(issues).lower()` holds exactly
      when the metrics issue was not raised. */
  lemma MetricsFlag(issues: seq<FormatIssue>)
    ensures Contains(Lower(Join(Messages(issues), " ")), MetricsPhrase) <==> NoMetrics in issues
  {
    var text := Join(Messages(issues), " ");
    if NoMetrics in issues {
      var k :| 0 <= k < |issues| && issues[k] == NoMetrics;
      JoinContainsEach(Messages(issues), " ", k);
      ContainsLower(text, NoMetrics.Message());
      MetricsMessageContainsPhrase();
      ContainsTransitive(Lower(text), Lower(NoMetrics.Message()), MetricsPhrase);
    } else if Contains(Lower(text), MetricsPhrase) {
      var i :| 0 <= i <= |Lower(text)| - |MetricsPhrase| && OccursAt(Lower(text), MetricsPhrase, i);
      assert Lower(text)[i] == MetricsPhrase[0] == 'q';
      var c := text[i];
      assert c == 'q' || c == 'Q';
      JoinCharSource(Messages(issues), " ", c);
      var k :| 0 <= k < |Messages(issues)| && c in Messages(issues)[k];
      if issues[k] != NoMetrics {
        OnlyMetricsHasQ(issues[k]);
      }
    }
  }

  /** `'quantifiable achievements' in ' '.join(issues).lower()`. */
  predicate MentionsMetricsAdvice(issues: seq<string>) {
    Contains(Lower(Join(issues, " ")), MetricsPhrase)
  }

  /** The reported issues mention the metrics advice exactly when no experience
      description has a number. */
  lemma MeasurableFlag(r: Resume)
    ensures !MentionsMetricsAdvice(Messages(FormatIssues(r))) <==> HasMetrics(r)
  {
    MetricsFlag(FormatIssues(r));
    FormatIssuesMember(r, NoMetrics);
  }
}
