# ATS analyzer of the resume builder, in Dafny

This project models the resume builder's applicant-tracking-system (ATS)
analyzer. The analyzer compares a resume with a job description and produces:

- a keyword match: words of three or more letters, stop words removed, the 50
  most frequent, with their counts;
- a required-skill check: six fixed alternations of technology names;
- a formatting check: contact details, sections, measurable achievements and
  summary length, each with a fixed deduction;
- a readability band: words per sentence;
- a list of suggestions;
- a weighted overall score that rounds half to even.

It also models the small rules on the stored records:

- the duration text of a job;
- what a subscription plan allows;
- how a custom template counts its uses;
- how templates and blog posts get a slug only when they have none.

Layout, one module per file:

- `text.dfy` (`Text`): characters, lower-casing, `str.join`, `str.split`,
  `re.split` on one character class, and substring search.
- `numbers.dfy` (`Numbers`): `str(n)` and Python's `round`.
- `keywords.dfy` (`Keywords`): `_extract_keywords`. This covers the `\b[a-z]{3,}\b`
  scan, the stop words, `Counter` (insertion-ordered), the stable sort by count
  and `most_common`.
- `skills.dfy` (`Skills`): `_extract_required_skills`.
- `resume.dfy` (`ResumeData`): the resume records and `_extract_resume_text`.
- `keyword_match.dfy` (`KeywordMatch`): the specification of
  `calculate_keyword_match`.
- `formatting.dfy` (`Formatting`): the specification of `check_formatting`.
- `readability.dfy` (`Readability`): `calculate_readability`.
- `suggestions.dfy` (`Suggestions`): `generate_suggestions`.
- `analyzer.dfy` (`Analyzer`): the class `ATSAnalyzer` with its operations, the
  overall score, `analyze` and `get_detailed_report`. The loops of the source
  are methods here, proved against the specification functions of the modules
  above.
- `models.dfy` (`Models`): `Experience.duration`, `Subscription`, and the
  `CustomTemplate` and `BlogPost` save logic. The two record types are classes
  whose methods update their fields.
- `options.dfy` (`Options`): the `Option` type.

Python's `round` is modelled exactly, as rounding half to even on the exact
rational: `round(x * 0.35 + …)` is `RoundHalfEven(35 x + …, 100)`. Integer
division and remainder by the positive constants 365 and 30 agree with
Python's floor division.

## Model

| member | source | states |
|---|---|---|
| Analyzer.ATSAnalyzer.constructor | apps/resumes/ats_analyzer.py:12-15 | the job description is stored lower-cased; the resume text is the lower-cased space-join of the non-empty resume fields |
| ResumeData.ExtractResumeText | apps/resumes/ats_analyzer.py:26-69 | the loops over experiences, educations, skills, certifications and projects produce the space-join of the non-empty fields, in source order |
| ResumeData.ExtendWithFields | apps/resumes/ats_analyzer.py:35-67 | each `extend` loop appends the listed fields of every record, record by record |
| ResumeData.ResumeTextContainsField | apps/resumes/ats_analyzer.py:15-69 | every non-empty resume field occurs, lower-cased, in the analyzer's resume text |
| ResumeData.ResumeTextEmpty | apps/resumes/ats_analyzer.py:69 | the resume text is empty exactly when every field is empty |
| Keywords.KeywordWordsSound | apps/resumes/ats_analyzer.py:74-77 | every keyword is a maximal run of word characters, made only of at least three letters a-z, and not a stop word |
| Keywords.KeywordWordsComplete | apps/resumes/ats_analyzer.py:74-77 | every such run that is not a stop word is a keyword |
| Keywords.DigitSpoilsWord | apps/resumes/ats_analyzer.py:74 | a letter run glued to a digit has no word boundary, so `python3` yields no keyword |
| Keywords.DropStopWords | apps/resumes/ats_analyzer.py:18-24 | the filtered words are the input words that are not stop words |
| Keywords.ExtractKeywords | apps/resumes/ats_analyzer.py:71-83 | the keyword map has at most `max_keywords` entries |
| Keywords.TallyGet | apps/resumes/ats_analyzer.py:80 | the counter holds, for each word, its number of occurrences |
| Keywords.TallyShape | apps/resumes/ats_analyzer.py:80 | the counter has one entry per distinct word |
| Keywords.TallyKeys | apps/resumes/ats_analyzer.py:80 | the counter's keys are the distinct words in first-occurrence order |
| Keywords.SortFacts | apps/resumes/ats_analyzer.py:83 | the sort by count is non-increasing, is a permutation, and keeps the order among equal counts |
| Keywords.SortPermutes | apps/resumes/ats_analyzer.py:83 | the sort by count is non-increasing and a permutation of the counter |
| Keywords.SortKeepsTies | apps/resumes/ats_analyzer.py:83 | the entries of each count keep their counter order, so the sort is stable |
| Keywords.InsertSorted | apps/resumes/ats_analyzer.py:83 | inserting into a sorted list keeps it sorted |
| Keywords.InsertMultiset | apps/resumes/ats_analyzer.py:83 | inserting adds exactly the new entry |
| Keywords.InsertWithCount | apps/resumes/ats_analyzer.py:83 | an inserted entry goes behind every entry of its count |
| Keywords.SortKeys | apps/resumes/ats_analyzer.py:83 | sorting keeps the keys, and keeps them distinct |
| Keywords.MostCommonTop | apps/resumes/ats_analyzer.py:83 | `most_common(n)` leaves a key out only when n entries are kept, each at least as frequent |
| Keywords.ExtractKeywordsSize | apps/resumes/ats_analyzer.py:71-83 | the keyword map has min(distinct keywords, 50) entries with distinct keys |
| Keywords.ExtractKeywordsCounts | apps/resumes/ats_analyzer.py:71-83 | each entry is a keyword of the text with its exact occurrence count, at least 1 |
| Keywords.ExtractKeywordsOrder | apps/resumes/ats_analyzer.py:71-83 | counts never increase along the map; entries with equal counts keep first-occurrence order |
| Keywords.ExtractKeywordsTop | apps/resumes/ats_analyzer.py:71-83 | a keyword left out means the map is full and every kept entry is at least as frequent |
| Skills.MatchAt | apps/resumes/ats_analyzer.py:99 | the alternation matches at a position only with a listed literal bounded by word boundaries; no match means no literal fits there |
| Skills.FindAll | apps/resumes/ats_analyzer.py:99 | every match is a literal of the alternation, and there are no more matches than characters scanned |
| Skills.FindAllSound | apps/resumes/ats_analyzer.py:99 | every `findall` result is a literal of the pattern that occurs between word boundaries |
| Skills.FindAllEachSound | apps/resumes/ats_analyzer.py:98-100 | every collected match comes from one of the patterns and occurs between word boundaries |
| Skills.FindAllEach | apps/resumes/ats_analyzer.py:98-100 | every collected match is a literal of one of the patterns |
| Skills.FindAllNoWords | apps/resumes/ats_analyzer.py:99 | a text without word characters yields no match |
| Skills.RequiredSkillsSound | apps/resumes/ats_analyzer.py:85-102 | every required skill is a skill literal that occurs in the job description between word boundaries |
| Skills.RequiredSkills | apps/resumes/ats_analyzer.py:85-102 | the required skills are among the skill names of the six alternations |
| KeywordMatch.SelectPartition | apps/resumes/ats_analyzer.py:116-127 | matched keys are the job-description keys the resume has; missing keys are the others; together they number the job-description keys |
| KeywordMatch.SelectOrder | apps/resumes/ats_analyzer.py:116-127 | matched and missing lists keep the job-description map's order |
| KeywordMatch.Select | apps/resumes/ats_analyzer.py:116-127 | the matched or missing list is no longer than the job-description map |
| KeywordMatch.DensityMap | apps/resumes/ats_analyzer.py:119-125 | the density map has no more entries than the job-description map, each with a positive job-description count and the key's positive resume count |
| KeywordMatch.DensityFacts | apps/resumes/ats_analyzer.py:119-125 | the density map has exactly the matched keys; each entry has the job-description count, the resume count, and a ratio in (0, 1] that is 1 iff the resume count reaches the job-description count |
| KeywordMatch.DensityDomain | apps/resumes/ats_analyzer.py:119-121 | a density entry exists exactly for job-description keys the resume uses |
| KeywordMatch.DensityEntry | apps/resumes/ats_analyzer.py:121-125 | each density entry's counts and capped ratio |
| KeywordMatch.RatioFacts | apps/resumes/ats_analyzer.py:124 | the capped ratio lies in (0, 1], and is 1 iff the resume count is at least the job-description count |
| KeywordMatch.MatchScore | apps/resumes/ats_analyzer.py:129-132 | the match score is a percentage in 0..100 |
| KeywordMatch.MatchScoreRange | apps/resumes/ats_analyzer.py:129-132 | the match score lies in 0..100; it is 100 iff nothing is missing and 0 iff nothing matched |
| Analyzer.KeywordMapShape | apps/resumes/ats_analyzer.py:106-107 | keyword maps have positive counts, distinct keys and at most 50 entries |
| Analyzer.CompareKeywordMaps | apps/resumes/ats_analyzer.py:112-127 | the loop builds exactly the matched list, the missing list and the density map |
| Analyzer.ATSAnalyzer.KeywordScore | apps/resumes/ats_analyzer.py:129-132 | the keyword score is at most 100 |
| Analyzer.ATSAnalyzer.CalculateKeywordMatch | apps/resumes/ats_analyzer.py:104-132 | returns the rounded match score, the first 20 matched and missing keys, and the density map; 0 and empty results without job-description keywords |
| Analyzer.ATSAnalyzer.FoundSkillSet | apps/resumes/ats_analyzer.py:140-144 | found skills are required skills |
| Analyzer.ATSAnalyzer.SkillScore | apps/resumes/ats_analyzer.py:146-150 | the skill score is at most 100 |
| Analyzer.PartitionSkills | apps/resumes/ats_analyzer.py:140-144 | the loop puts every required skill the text contains in the found list and every other one in the missing list, each once |
| Analyzer.SubsetCardinality | apps/resumes/ats_analyzer.py:149 | found skills are never more than required ones, so the ratio is at most 1 |
| Analyzer.ATSAnalyzer.CheckRequiredSkills | apps/resumes/ats_analyzer.py:134-150 | found skills are exactly the required skills occurring in the resume text, one entry each; missing skills are the rest; the score is 100 with no required skills, otherwise the rounded percentage |
| Formatting.SummaryIssues | apps/resumes/ats_analyzer.py:191-199 | at most one summary issue: missing iff the summary is empty, too short iff under 20 words, too long iff over 150 words |
| Formatting.FormatIssues | apps/resumes/ats_analyzer.py:152-199 | at most six issues are raised, one per rule |
| Formatting.FormatIssuesExactly | apps/resumes/ats_analyzer.py:152-199 | each of the eight issues is raised exactly when its condition holds |
| Formatting.FormatIssuesMember | apps/resumes/ats_analyzer.py:152-199 | an issue is listed iff one of the six rules raises it |
| Formatting.BlankSummaryTooShort | apps/resumes/ats_analyzer.py:191-195 | a summary of only whitespace is non-empty, so it is reported too short rather than missing |
| Formatting.FormatIssuesRanked | apps/resumes/ats_analyzer.py:152-199 | issues appear in rule order, at most one per rule |
| Formatting.FormatIssuesOrdered | apps/resumes/ats_analyzer.py:152-199 | an earlier issue belongs to an earlier rule |
| Formatting.AtMostOneSummaryIssue | apps/resumes/ats_analyzer.py:191-199 | at most one of the three summary issues is reported |
| Formatting.DeductionTable | apps/resumes/ats_analyzer.py:152-199 | the total deduction is 10/5/20/15/10 for the first five rules plus 10 or 5 for the summary |
| Formatting.DeductionBound | apps/resumes/ats_analyzer.py:199 | the deduction is at most 70, so the score stays in 30..100 and `max(score, 0)` never clips |
| Formatting.SummaryDeduction | apps/resumes/ats_analyzer.py:191-199 | the summary rule deducts 10 when empty, 5 when too short or too long |
| Analyzer.MentionsNumbers | apps/resumes/ats_analyzer.py:183-188 | the early-exit loop finds a digit iff some experience description has one |
| Analyzer.CheckResumeFormatting | apps/resumes/ats_analyzer.py:152-199 | returns the messages of the raised issues, in rule order, and 100 minus their deductions, within 30..100 |
| Analyzer.ATSAnalyzer.CheckFormatting | apps/resumes/ats_analyzer.py:152-199 | the class method returns the same issues and score for its resume |
| Readability.SentenceCountPositive | apps/resumes/ats_analyzer.py:206 | `re.split` gives one piece more than there are runs of terminators, so at least one |
| Readability.AverageCompare | apps/resumes/ats_analyzer.py:212-220 | comparing the average with a bound is comparing words with bound times sentences |
| Readability.ReadabilityScore | apps/resumes/ats_analyzer.py:201-222 | the readability score is 0, 60, 80 or 100, so the fallback 70 is never returned |
| Readability.ReadabilityBands | apps/resumes/ats_analyzer.py:212-222 | for non-empty text with words: 100 iff 15–20 words per sentence, 80 iff 10–15 or 20–25, 60 otherwise; the fallback 70 is unreachable |
| Readability.ReadabilityValues | apps/resumes/ats_analyzer.py:201-222 | the score is 0, 60, 80 or 100, and 0 exactly for whitespace-only text |
| Suggestions.KeywordSuggestions | apps/resumes/ats_analyzer.py:229-243 | at most one keyword suggestion, of category Keywords |
| Suggestions.SkillSuggestions | apps/resumes/ats_analyzer.py:245-252 | at most one skill suggestion, of category Skills |
| Suggestions.FormattingSuggestions | apps/resumes/ats_analyzer.py:254-261 | one formatting suggestion per issue |
| Suggestions.FormattingSuggestionsMirrorIssues | apps/resumes/ats_analyzer.py:255-261 | the k-th formatting suggestion carries the k-th issue as message, severity medium |
| Suggestions.OfCategory | apps/resumes/ats_analyzer.py:224-272 | selecting a category keeps exactly the suggestions of that category |
| Suggestions.SuggestionsByCategory | apps/resumes/ats_analyzer.py:224-272 | per category, the suggestions are those of the matching rule, in rule order |
| Suggestions.KeywordSuggestionShape | apps/resumes/ats_analyzer.py:229-243 | no keyword suggestion iff the score is at least 80; below 60: high severity, a message quoting the score, and an action listing the first 5 missing keywords; from 60 to 80: medium severity, the coverage message, and an action listing the first 3 |
| Suggestions.KeywordSuggestionRule | apps/resumes/ats_analyzer.py:229-243 | the same facts for the Keywords suggestions in the full list |
| Suggestions.SkillSuggestionShape | apps/resumes/ats_analyzer.py:245-252 | a skill suggestion iff the score is below 70 and skills are missing; high severity; the message gives the count; the action lists the first 5 missing skills |
| Suggestions.SkillSuggestionRule | apps/resumes/ats_analyzer.py:245-252 | the same facts for the Skills suggestions in the full list |
| Suggestions.FormattingSuggestionRule | apps/resumes/ats_analyzer.py:254-261 | the Formatting suggestions mirror the issues one to one, in order |
| Suggestions.SuggestionsGeneral | apps/resumes/ats_analyzer.py:263-272 | the list is never empty; the general suggestion appears iff no other rule fires, and then alone |
| Suggestions.SuggestionsFor | apps/resumes/ats_analyzer.py:224-272 | the list is never empty and holds one suggestion per issue plus at most two more |
| Analyzer.AppendIssueSuggestions | apps/resumes/ats_analyzer.py:255-261 | the loop appends the formatting suggestions of the issues in order |
| Analyzer.ATSAnalyzer.GenerateSuggestions | apps/resumes/ats_analyzer.py:224-272 | returns exactly the suggestion list the rules define |
| Analyzer.OverallScore | apps/resumes/ats_analyzer.py:283-288 | the overall score lies within half a point of the weighted sum 0.35 k + 0.30 s + 0.25 f + 0.10 r |
| Analyzer.OverallScoreRange | apps/resumes/ats_analyzer.py:283-288 | scores in 0..100 give an overall score in 0..100 |
| Analyzer.OverallScoreUniform | apps/resumes/ats_analyzer.py:283-288 | equal component scores give that score, since the weights sum to 1 |
| Analyzer.OverallScoreMonotonic | apps/resumes/ats_analyzer.py:283-288 | raising any component never lowers the overall score |
| Formatting.MetricsFlag | apps/resumes/ats_analyzer.py:310 | the joined, lower-cased issue text mentions "quantifiable achievements" iff the metrics issue is listed |
| Formatting.MeasurableFlag | apps/resumes/ats_analyzer.py:310 | the text test yields true iff some experience description has a digit |
| Analyzer.MeasurableAchievements | apps/resumes/ats_analyzer.py:310 | the flag computed from the issue text equals having metrics |
| Analyzer.ATSAnalyzer.Analyze | apps/resumes/ats_analyzer.py:274-319 | the analysis carries the overall score (0..100), the first 20 matched and missing keys, the density map, the suggestions built from the three scores, and the flags: contact info iff e-mail and phone, sections iff experiences and skills, achievements iff a digit in an experience; plus the readability score |
| Analyzer.ATSAnalyzer.GetDetailedReport | apps/resumes/ats_analyzer.py:321-350 | the report carries the same overall score, the breakdown, the first 10 matched and missing keys, found skills (one entry per found skill) and missing skills, the issues, and the suggestions |
| Numbers.NatToString | apps/resumes/ats_analyzer.py:250 | `str(n)` is a non-empty string of decimal digits without a leading zero |
| Numbers.NatToStringRoundTrip | apps/resumes/ats_analyzer.py:250 | reading back the digits gives the number |
| Numbers.NatToStringInjective | apps/resumes/ats_analyzer.py:250 | distinct counts print differently |
| Numbers.RoundHalfEven | apps/resumes/ats_analyzer.py:132 | the result is a nearest integer to the quotient, the even one on a tie |
| Numbers.RoundHalfEvenUnique | apps/resumes/ats_analyzer.py:132 | the nearest-integer, ties-to-even condition has exactly one solution |
| Numbers.RoundHalfEvenMonotonic | apps/resumes/ats_analyzer.py:283-288 | rounding is monotonic in the numerator |
| Numbers.PercentInRange | apps/resumes/ats_analyzer.py:149-150 | a rounded percentage of a part of a whole lies in 0..100 |
| Text.LowerIsLowerCase | apps/resumes/ats_analyzer.py:14-15 | `lower` keeps the length, leaves no upper-case letter, and is idempotent |
| Text.ContainsLower | apps/resumes/ats_analyzer.py:141 | a substring stays a substring after lower-casing both |
| Text.JoinContainsEach | apps/resumes/ats_analyzer.py:69 | every joined part occurs in the join |
| Text.JoinOfNonEmpty | apps/resumes/ats_analyzer.py:69 | a join of non-empty parts is empty iff there are no parts |
| Text.SplitEmpty | apps/resumes/ats_analyzer.py:193 | `split()` gives no words iff the text is all whitespace |
| Text.SplitOnCount | apps/resumes/ats_analyzer.py:206 | `re.split` on a class gives one piece more than there are separator runs |
| Text.RunsAreMaximal | apps/resumes/ats_analyzer.py:74 | each scanned run is a maximal run of the class |
| Text.MaximalRunsAreRuns | apps/resumes/ats_analyzer.py:74 | each maximal run is scanned |
| Models.YearsMonthsSplit | apps/resumes/models.py:88-89 | whole years of 365 days then whole months of 30 days leave fewer than 30 days; months lie in 0..12; years are positive iff 365 days or more |
| Models.CurrentJobRunsToToday | apps/resumes/models.py:86 | a missing end date counts as today |
| Models.Duration | apps/resumes/models.py:83-93 | the duration text starts with a digit and its last character is `h` or `s`, the end of "month" or "months" |
| Models.DurationLeadingNumber | apps/resumes/models.py:91-93 | the number the text starts with is the years, or the months when under a year |
| Models.DurationMonthNumber | apps/resumes/models.py:88-92 | with a year part, the number after "Y year[s], " reads back as the month count |
| Models.DurationMonthPlural | apps/resumes/models.py:92-93 | the text ends in "s" iff the month count is not 1 |
| Models.DurationYearPlural | apps/resumes/models.py:92 | "year" is plural iff there is more than one year |
| Models.DurationMentionsYear | apps/resumes/models.py:91-93 | the text mentions "year" iff the job lasted at least 365 days |
| Models.IsPremium | apps/resumes/models.py:483-485 | a premium subscription is active and not on the free plan |
| Models.CanCreateResume | apps/resumes/models.py:487-493 | pro and enterprise are always allowed; on any other plan an allowed resume keeps the active count within `max_resumes` |
| Models.HasAiCredits | apps/resumes/models.py:495-497 | credits are available only when spending one leaves a balance of zero or more |
| Models.LapsedUnlimitedStillCreates | apps/resumes/models.py:483-493 | a pro or enterprise subscription that is not active is not premium, yet may create any number of resumes |
| Models.PremiumBasicStopsAtMax | apps/resumes/models.py:483-493 | a premium basic subscription is still refused at its limit |
| Models.PremiumUnlimitedCreates | apps/resumes/models.py:483-490 | a premium pro or enterprise subscription may always create a resume |
| Models.FreePlanLimited | apps/resumes/models.py:483-493 | a free subscription is never premium and may create a resume iff its active count is below the limit |
| Models.CanCreateResumeMonotonic | apps/resumes/models.py:487-493 | fewer active resumes never remove the permission |
| Models.AiCreditsIgnorePlan | apps/resumes/models.py:483-497 | credits do not depend on plan or status; a premium subscription without credits has none |
| Models.ShortId | apps/resumes/models.py:388 | the suffix is at most 8 characters, a prefix of the UUID text |
| Models.CustomTemplate.constructor | apps/resumes/models.py:317-318 | a new template has the given name and slug and no uses |
| Models.CustomTemplate.Save | apps/resumes/models.py:385-389 | a non-empty slug is kept; an empty one becomes the slugified name, a dash and the first (up to) 8 characters of the UUID text; afterwards the slug is never empty; nothing else changes |
| Models.CustomTemplate.IncrementUsage | apps/resumes/models.py:391-394 | the use count grows by exactly one; the name is unchanged; the slug is filled only if it was empty |
| Models.BlogPost.constructor | apps/resumes/models.py:247-248 | a new post has the given title and slug |
| Models.BlogPost.Save | apps/resumes/models.py:264-267 | a non-empty slug is kept; an empty one becomes the slugified title; the title is unchanged |

## Left out

- Floating point. `round` works on the exact rational, and `match_ratio` is a
  Dafny `real`. Binary rounding error could in principle move a `.5` tie; the
  model does not capture that.
- Unicode. `\w`, `\d`, `str.split` whitespace and `lower()` are modelled on
  ASCII. Other characters count as neither word characters, digits nor
  whitespace, and are not case-folded.
- Skills.RequiredSkillsSound: only soundness of `_extract_required_skills` is
  proved. Every skill returned occurs in the job description between word
  boundaries. Completeness (every such occurrence is found) is not proved,
  because of `findall`'s non-overlapping left-to-right scan.
- The order of the required-skill list comes from a Python set's hash order.
  The model picks the skills in an arbitrary order, so the found and missing
  lists are specified up to order.
- Analyzer.ATSAnalyzer.Analyze: the ghost `missingSkills` result only names
  the list the suggestions were built from. It is not part of the stored
  analysis.
- Persistence. `analyze` creates the `ATSAnalysis` row, sets `resume.ats_score`
  and `last_ats_check` with `timezone.now()`, and saves the resume. The model
  returns the analysis value only.
- `has_contact_info`: the source passes the string `email and phone` to a
  `BooleanField` (apps/resumes/models.py:222). A boolean field does not hold
  strings, and most such values are rejected when the row is saved. The model
  keeps the intended truth value; the rejection belongs to the persistence step,
  which is not modelled.
- The ORM. Related records (`experiences.all()`, …) are sequences. `exists()`
  is non-emptiness. The count of the user's active resumes is a parameter of
  `CanCreateResume`.
- Parameters for outside inputs:
  - `date.today()` is a day-number parameter;
  - `slugify` is a function parameter;
  - `uuid.uuid4()` is its text.
- The database write at the end of both `save` methods.
- KeywordMatch.DensityMap: a Dafny map has no key order. The source's
  `keyword_density` dict, stored as JSON, keeps the job-description order of the
  matched keywords; the model does not capture that order.
- Formatting issues are built as a datatype and turned into their messages by
  `Message`. The messages are the source's literal texts.
- Models.CustomTemplate.IncrementUsage: the model runs the `save` logic, so a
  template with an empty slug also gets one. That is what the code does, even
  though `increment_usage` is described as changing only the counter. Because
  `save(update_fields=['usage_count'])` writes only the counter, the filled-in
  slug stays in memory and is not stored.
- Models.CanCreateResume ignores the subscription status, as the code does.
  A cancelled pro plan can still create resumes.
- Other parts of the application are not part of this model:
  - views, forms, admin and URL routing;
  - settings;
  - the Stripe service;
  - the PDF generator and template renderer;
  - the keyword lists in `ats_keywords.py`;
  - the sitemap;
  - the other model classes and their string representations.
