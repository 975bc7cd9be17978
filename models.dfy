/** The small rules on the stored records: how long a job lasted, what a
    subscription allows, and how templates and blog posts get their slugs and
    usage counts. Dates are day numbers; "today", `slugify` and the random UUID
    are parameters. */
module Models {
  import opened Options
  import opened Text
  import opened Numbers
  import opened ResumeData

  // ---------------------------------------------------------------------------
  // Experience.duration

  /** Days from the start date to the end date, or to today while the job is current. */
  function ElapsedDays(e: Experience, today: int): int {
    match e.endDay
    case Some(end) => end - e.startDay
    case None => today - e.startDay
  }

  /** `delta.days // 365` (floor division; the divisor is positive). */
  function Years(days: int): int { days / 365 }

  /** `(delta.days % 365) // 30`. */
  function Months(days: int): nat { (days % 365) / 30 }

  /** " month" or " months", after the month count. */
  function MonthUnit(months: nat): string {
    " month" + (if months != 1 then "s" else "")
  }

  function MonthText(months: nat): string {
    NatToString(months) + MonthUnit(months)
  }

  /** " year, " or " years, ", between the year count and the months. */
  function YearUnit(years: int): string {
    " year" + (if years > 1 then "s" else "") + ", "
  }

  /** `Experience.duration`: "Y year[s], M month[s]" for a job of a year or more,
      "M month[s]" otherwise. */
  function Duration(e: Experience, today: int): (text: string)
    ensures text != [] && IsDigit(text[0])
    ensures text[|text| - 1] == 'h' || text[|text| - 1] == 's'
  {
    var days := ElapsedDays(e, today);
    var years, months := Years(days), Months(days);
    if years > 0 then NatToString(years) + YearUnit(years) + MonthText(months)
    else MonthText(months)
  }

  /** Years and months split the elapsed days: whole years of 365 days, then
      whole months of 30 of the remaining days, which leaves fewer than 30. */
  lemma YearsMonthsSplit(days: int)
    ensures 0 <= Months(days) <= 12
    ensures 365 * Years(days) + 30 * Months(days) <= days < 365 * Years(days) + 30 * Months(days) + 30
    ensures Years(days) > 0 <==> days >= 365
  {
  }

  /** A missing end date means the job runs until today. */
  lemma CurrentJobRunsToToday(e: Experience, today: int)
    requires e.endDay == None
    ensures Duration(e, today) == Duration(e.(endDay := Some(today)), today)
  {
  }

  /** The leading run of decimal digits of `s`. */
  function LeadingDigits(s: string): (d: string)
    ensures d <= s
    ensures forall i :: 0 <= i < |d| ==> IsDigit(d[i])
  {
    if s == [] || !IsDigit(s[0]) then [] else [s[0]] + LeadingDigits(s[1..])
  }

  lemma {:induction false} LeadingDigitsOf(d: string, rest: string)
    requires forall i :: 0 <= i < |d| ==> IsDigit(d[i])
    requires rest != [] && !IsDigit(rest[0])
    ensures LeadingDigits(d + rest) == d
  {
    if d != [] {
      assert (d + rest)[1..] == d[1..] + rest;
      LeadingDigitsOf(d[1..], rest);
    }
  }

  /** Reading the number at the front of the text gives back the years, or the
      months when the job lasted less than a year. */
  lemma DurationLeadingNumber(e: Experience, today: int)
    ensures var days := ElapsedDays(e, today);
      DigitsValue(LeadingDigits(Duration(e, today))) == if Years(days) > 0 then Years(days) else Months(days)
  {
    var days := ElapsedDays(e, today);
    var years, months := Years(days), Months(days);
    if years > 0 {
      assert Duration(e, today) == NatToString(years) + (YearUnit(years) + MonthText(months));
      LeadingNumber(years, YearUnit(years) + MonthText(months));
    } else {
      LeadingNumber(months, MonthUnit(months));
    }
  }

  /** With a year part, the number after "Y year[s], " reads back as the months. */
  lemma DurationMonthNumber(e: Experience, today: int)
    requires Years(ElapsedDays(e, today)) > 0
    ensures var days := ElapsedDays(e, today);
      var text, pre := Duration(e, today), |NatToString(Years(days))| + |YearUnit(Years(days))|;
      pre < |text| && DigitsValue(LeadingDigits(text[pre..])) == Months(days)
  {
    var days := ElapsedDays(e, today);
    var years, months := Years(days), Months(days);
    var pre := |NatToString(years)| + |YearUnit(years)|;
    assert Duration(e, today)[pre..] == NatToString(months) + MonthUnit(months);
    LeadingNumber(months, MonthUnit(months));
  }

  /** A rendered number followed by text that starts with a space reads back as itself. */
  lemma LeadingNumber(n: nat, rest: string)
    requires rest != [] && rest[0] == ' '
    ensures DigitsValue(LeadingDigits(NatToString(n) + rest)) == n
  {
    LeadingDigitsOf(NatToString(n), rest);
    NatToStringRoundTrip(n);
  }

  /** "month" is plural exactly when the month count is not 1: the text ends in
      `s` then and in `h` otherwise. */
  lemma DurationMonthPlural(e: Experience, today: int)
    ensures var text := Duration(e, today);
      text != [] && (text[|text| - 1] == 's' <==> Months(ElapsedDays(e, today)) != 1)
  {
  }

  /** When there is a year part, "year" is plural exactly when there are more
      than one: the character after "Y year" is `s`, or else the comma. */
  lemma DurationYearPlural(e: Experience, today: int)
    requires Years(ElapsedDays(e, today)) > 0
    ensures var text, years := Duration(e, today), Years(ElapsedDays(e, today));
      |NatToString(years)| + 5 < |text| && (text[|NatToString(years)| + 5] == 's' <==> years > 1)
  {
    var days := ElapsedDays(e, today);
    var years := Years(days);
    var y, u := NatToString(years), YearUnit(years);
    assert Duration(e, today) == y + (u + MonthText(Months(days)));
    assert (y + (u + MonthText(Months(days))))[|y| + 5] == u[5];
  }

  /** The word "year" appears exactly when the job lasted a year or more. */
  lemma DurationMentionsYear(e: Experience, today: int)
    ensures Contains(Duration(e, today), "year") <==> ElapsedDays(e, today) >= 365
  {
    var days := ElapsedDays(e, today);
    var years, months := Years(days), Months(days);
    YearsMonthsSplit(days);
    if years > 0 {
      var y, u := NatToString(years), YearUnit(years);
      assert Duration(e, today) == y + (u + MonthText(months));
      assert OccursAt(Duration(e, today), "year", |y| + 1);
    } else {
      MonthTextNoYear(months);
    }
  }

  lemma MonthTextNoYear(months: nat)
    ensures !Contains(MonthText(months), "year")
  {
    var d, u := NatToString(months), MonthUnit(months);
    var text := d + u;
    assert 'y' !in d && 'y' !in u;
    forall i | 0 <= i <= |text| - 4 ensures !OccursAt(text, "year", i) {
      assert text[i] in text;
      assert text[i..i + 4][0] == text[i] != 'y' == "year"[0];
    }
  }

  // ---------------------------------------------------------------------------
  // Subscription

  const Free: string := "free"
  const Basic: string := "basic"
  const Pro: string := "pro"
  const Enterprise: string := "enterprise"
  const Active: string := "active"

  /** A subscription record; `maxResumes` and `aiCredits` are plain integers and
      may be negative. */
  datatype Subscription = Subscription(plan: string, status: string, maxResumes: int, aiCredits: int)

  /** `is_premium`: any paid plan, while the subscription is active. A free plan
      or a subscription in any other status is never premium. */
  predicate IsPremium(s: Subscription): (premium: bool)
    ensures premium ==> s.plan != Free && s.status == Active
  {
    s.plan in [Basic, Pro, Enterprise] && s.status == Active
  }

  predicate IsUnlimitedPlan(plan: string) { plan == Pro || plan == Enterprise }

  /** `can_create_resume`; `activeResumes` is the number of the user's active
      resumes. Pro and enterprise are unlimited; on any other plan one more
      resume is allowed only when it keeps the count within `max_resumes`. */
  predicate CanCreateResume(s: Subscription, activeResumes: nat): (allowed: bool)
    ensures IsUnlimitedPlan(s.plan) ==> allowed
    ensures allowed && !IsUnlimitedPlan(s.plan) ==> activeResumes + 1 <= s.maxResumes
  {
    if IsUnlimitedPlan(s.plan) then true else activeResumes < s.maxResumes
  }

  /** `has_ai_credits`: spending one credit would leave a balance of zero or more. */
  predicate HasAiCredits(s: Subscription): (available: bool)
    ensures available ==> s.aiCredits - 1 >= 0
  {
    s.aiCredits > 0
  }

  /** The resume limit looks only at the plan, not at the status: a cancelled
      (or past-due, …) pro or enterprise subscription is not premium, yet may
      still create any number of resumes. */
  lemma LapsedUnlimitedStillCreates(s: Subscription, activeResumes: nat)
    requires IsUnlimitedPlan(s.plan) && s.status != Active
    ensures !IsPremium(s) && CanCreateResume(s, activeResumes)
  {
  }

  /** Being premium does not lift the limit of the basic plan. */
  lemma PremiumBasicStopsAtMax(s: Subscription, activeResumes: nat)
    requires IsPremium(s) && s.plan == Basic && activeResumes >= s.maxResumes
    ensures !CanCreateResume(s, activeResumes)
  {
  }

  /** Every premium pro or enterprise subscription may create another resume. */
  lemma PremiumUnlimitedCreates(s: Subscription, activeResumes: nat)
    requires IsPremium(s) && IsUnlimitedPlan(s.plan)
    ensures CanCreateResume(s, activeResumes)
  {
  }

  /** A free subscription is never premium and is held to its limit, whatever
      its status. */
  lemma FreePlanLimited(s: Subscription, activeResumes: nat)
    requires s.plan == Free
    ensures !IsPremium(s)
    ensures CanCreateResume(s, activeResumes) <==> activeResumes < s.maxResumes
  {
  }

  /** Having fewer active resumes never takes the permission away. */
  lemma CanCreateResumeMonotonic(s: Subscription, fewer: nat, more: nat)
    requires fewer <= more && CanCreateResume(s, more)
    ensures CanCreateResume(s, fewer)
  {
  }

  /** Credits do not depend on the plan or the status: a lapsed or free
      subscription keeps whatever credits it has, and a premium one with none
      left has none. */
  lemma AiCreditsIgnorePlan(s: Subscription, plan: string, status: string)
    ensures HasAiCredits(s.(plan := plan, status := status)) == HasAiCredits(s)
    ensures IsPremium(s) && s.aiCredits <= 0 ==> !HasAiCredits(s)
  {
  }

  // ---------------------------------------------------------------------------
  // Slugs and usage counts

  /** `str(uuid.uuid4())[:8]`: the first eight characters of the UUID's text. */
  function ShortId(uuidText: string): (r: string)
    ensures |r| <= 8 && r <= uuidText
  {
    Take(uuidText, 8)
  }

  class CustomTemplate {
    var name: string
    var slug: string
    var usageCount: nat

    constructor(name: string, slug: string)
      ensures this.name == name && this.slug == slug && usageCount == 0
    {
      this.name := name;
      this.slug := slug;
      usageCount := 0;
    }

    /** `save` before the database write: an empty slug becomes the slugified
        name, a dash and the first (up to) eight characters of a fresh UUID's text; a non-empty slug is
        kept. After it the slug is never empty. */
    method Save(slugify: string -> string, uuidText: string)
      modifies this
      ensures old(slug) != "" ==> slug == old(slug)
      ensures old(slug) == "" ==> slug == slugify(name) + "-" + ShortId(uuidText)
      ensures slug != ""
      ensures name == old(name) && usageCount == old(usageCount)
    {
      if slug == "" {
        slug := slugify(name) + "-" + ShortId(uuidText);
      }
    }

    /** `increment_usage`: one more use, then `save`, which also fills in a
        missing slug. */
    method IncrementUsage(slugify: string -> string, uuidText: string)
      modifies this
      ensures usageCount == old(usageCount) + 1
      ensures name == old(name)
      ensures old(slug) != "" ==> slug == old(slug)
      ensures old(slug) == "" ==> slug == slugify(name) + "-" + ShortId(uuidText)
    {
      usageCount := usageCount + 1;
      Save(slugify, uuidText);
    }
  }

  class BlogPost {
    var title: string
    var slug: string

    constructor(title: string, slug: string)
      ensures this.title == title && this.slug == slug
    {
      this.title := title;
      this.slug := slug;
    }

    /** `save` before the database write: an empty slug becomes the slugified
        title; a non-empty slug is kept. */
    method Save(slugify: string -> string)
      modifies this
      ensures old(slug) != "" ==> slug == old(slug)
      ensures old(slug) == "" ==> slug == slugify(title)
      ensures title == old(title)
    {
      if slug == "" {
        slug := slugify(title);
      }
    }
  }
}
