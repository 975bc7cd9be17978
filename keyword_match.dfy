/** `calculate_keyword_match`'s specification: the job description's keyword
    map compared key by key against the resume's keyword map. */
module KeywordMatch {
  import opened Numbers
  import opened Keywords

  /** One `density` entry. */
  datatype Density = Density(jdCount: nat, resumeCount: nat, matchRatio: real)

  /** Both keyword lists are cut to this many entries. */
  const ListLimit: nat := 20

  /** `min(resume_count / jd_count, 1.0)`. */
  function MatchRatio(resumeCount: nat, jdCount: nat): real
    requires jdCount > 0
  {
    var ratio := resumeCount as real / jdCount as real;
    if ratio <= 1.0 then ratio else 1.0
  }

  /** The job-description keys, in map order, that the resume map has
      (`present`) or lacks (`!present`), never more keys than the job
      description has. */
  function Select(jd: seq<Freq>, res: seq<Freq>, present: bool): (r: seq<string>)
    ensures |r| <= |jd|
  {
    if jd == [] then []
    else
      var w := jd[|jd| - 1].word;
      Select(jd[..|jd| - 1], res, present) + (if (Get(res, w) > 0) == present then [w] else [])
  }

  function MatchedKeys(jd: seq<Freq>, res: seq<Freq>): seq<string> { Select(jd, res, true) }
  function MissingKeys(jd: seq<Freq>, res: seq<Freq>): seq<string> { Select(jd, res, false) }

  predicate CountsPositive(jd: seq<Freq>) {
    forall e :: e in jd ==> e.count >= 1
  }

  /** The `density` map: an entry for every matched key, carrying a positive
      job-description count and the key's count in the resume. */
  function DensityMap(jd: seq<Freq>, res: seq<Freq>): (r: map<string, Density>)
    requires CountsPositive(jd)
    ensures |r| <= |jd|
    ensures forall w :: w in r ==> r[w].jdCount >= 1 && r[w].resumeCount == Get(res, w) >= 1
  {
    if jd == [] then map[]
    else
      var e := jd[|jd| - 1];
      var d := DensityMap(jd[..|jd| - 1], res);
      var resumeCount := Get(res, e.word);
      if resumeCount > 0 then d[e.word := Density(e.count, resumeCount, MatchRatio(resumeCount, e.count))]
      else d
  }

  /** The match score: 0 without job-description keywords, otherwise the matched
      share in percent, rounded, which is a percentage. */
  function MatchScore(jd: seq<Freq>, res: seq<Freq>): (r: int)
    ensures 0 <= r <= 100
  {
    if jd == [] then 0
    else
      PercentInRange(|MatchedKeys(jd, res)|, |jd|);
      RoundHalfEven(100 * |MatchedKeys(jd, res)|, |jd|)
  }

  /** Matched and missing keys split the job-description keys between them. */
  lemma {:induction false} SelectPartition(jd: seq<Freq>, res: seq<Freq>)
    ensures forall w :: w in MatchedKeys(jd, res) <==> w in Keys(jd) && Get(res, w) > 0
    ensures forall w :: w in MissingKeys(jd, res) <==> w in Keys(jd) && Get(res, w) == 0
    ensures |MatchedKeys(jd, res)| + |MissingKeys(jd, res)| == |jd|
  {
    if jd != [] {
      var n := |jd| - 1;
      var init, w := jd[..n], jd[n].word;
      SelectPartition(init, res);
      assert Keys(jd) == Keys(init) + [w] by {
        assert jd == init + [jd[n]];
        KeysAppend(init, [jd[n]]);
      }
      assert MatchedKeys(jd, res) == MatchedKeys(init, res) + (if Get(res, w) > 0 then [w] else []);
      assert MissingKeys(jd, res) == MissingKeys(init, res) + (if Get(res, w) == 0 then [w] else []);
    }
  }

  lemma FirstIndexAt<T>(ws: seq<T>, n: nat)
    requires n < |ws| && ws[n] !in ws[..n]
    ensures FirstIndex(ws, ws[n]) == n
  {
  }

  /** Both lists keep the order of the job-description map. */
  lemma {:induction false} SelectOrder(jd: seq<Freq>, res: seq<Freq>, present: bool, i: nat, j: nat)
    requires Distinct(Keys(jd))
    requires i < j < |Select(jd, res, present)|
    ensures Select(jd, res, present)[i] in Keys(jd) && Select(jd, res, present)[j] in Keys(jd)
    ensures FirstIndex(Keys(jd), Select(jd, res, present)[i]) < FirstIndex(Keys(jd), Select(jd, res, present)[j])
  {
    var n := |jd| - 1;
    var init, w := jd[..n], jd[n].word;
    var ks := Keys(jd);
    var s0 := Select(init, res, present);
    assert Select(jd, res, present) == s0 + (if (Get(res, w) > 0) == present then [w] else []);
    KeysPrefix(jd, n);
    KeysIndex(jd, n);
    DistinctPrefix(ks, n);
    assert s0[i] in Keys(init) by {
      SelectPartition(init, res);
      assert s0[i] in s0;
    }
    assert ks == ks[..n] + [w];
    if j < |s0| {
      SelectOrder(init, res, present, i, j);
      FirstIndexPrefix(ks, Keys(init), s0[i]);
      FirstIndexPrefix(ks, Keys(init), s0[j]);
    } else {
      assert Select(jd, res, present)[j] == w;
      FirstIndexPrefix(ks, Keys(init), s0[i]);
      DistinctPrefixSuffix(ks[..n], [w]);
      FirstIndexAt(ks, n);
    }
  }

  /** The density map has exactly the matched keys, each with its job-description
      count, its resume count and a ratio in (0, 1] that is 1 exactly when the
      resume uses the word at least as often. */
  lemma {:induction false} DensityFacts(jd: seq<Freq>, res: seq<Freq>, w: string)
    requires CountsPositive(jd)
    ensures w in DensityMap(jd, res) <==> w in MatchedKeys(jd, res)
    ensures w in DensityMap(jd, res) ==>
      var d := DensityMap(jd, res)[w];
      && (exists e :: e in jd && e.word == w && d.jdCount == e.count >= 1)
      && d.resumeCount == Get(res, w) > 0
      && 0.0 < d.matchRatio <= 1.0
      && (d.matchRatio == 1.0 <==> d.resumeCount >= d.jdCount)
  {
    SelectPartition(jd, res);
    DensityDomain(jd, res, w);
    if w in DensityMap(jd, res) {
      DensityEntry(jd, res, w);
    }
  }

  lemma CountsPositivePrefix(jd: seq<Freq>, n: nat)
    requires CountsPositive(jd) && n <= |jd|
    ensures CountsPositive(jd[..n])
  {
    forall x | x in jd[..n] ensures x.count >= 1 {
      assert x in jd;
    }
  }

  /** The density map's keys are the job-description keys the resume uses. */
  lemma {:induction false} DensityDomain(jd: seq<Freq>, res: seq<Freq>, w: string)
    requires CountsPositive(jd)
    ensures w in DensityMap(jd, res) <==> w in Keys(jd) && Get(res, w) > 0
  {
    if jd != [] {
      var n := |jd| - 1;
      CountsPositivePrefix(jd, n);
      DensityDomain(jd[..n], res, w);
      KeysPrefix(jd, n);
      KeysIndex(jd, n);
      assert Keys(jd) == Keys(jd)[..n] + [jd[n].word];
    }
  }

  /** Each density entry carries a job-description count of its word, the
      resume count and the capped ratio. */
  lemma {:induction false} DensityEntry(jd: seq<Freq>, res: seq<Freq>, w: string)
    requires CountsPositive(jd) && w in DensityMap(jd, res)
    ensures var d := DensityMap(jd, res)[w];
      && (exists e :: e in jd && e.word == w && d.jdCount == e.count >= 1)
      && d.resumeCount == Get(res, w) > 0
      && 0.0 < d.matchRatio <= 1.0
      && (d.matchRatio == 1.0 <==> d.resumeCount >= d.jdCount)
  {
    var n := |jd| - 1;
    var e := jd[n];
    CountsPositivePrefix(jd, n);
    if w == e.word && Get(res, w) > 0 {
      assert e in jd;
      RatioFacts(Get(res, w), e.count);
    } else {
      DensityEntry(jd[..n], res, w);
      var x :| x in jd[..n] && x.word == w && DensityMap(jd[..n], res)[w].jdCount == x.count >= 1;
      assert x in jd;
    }
  }

  lemma RatioFacts(resumeCount: nat, jdCount: nat)
    requires resumeCount > 0 && jdCount > 0
    ensures 0.0 < MatchRatio(resumeCount, jdCount) <= 1.0
    ensures MatchRatio(resumeCount, jdCount) == 1.0 <==> resumeCount >= jdCount
  {
    var ratio := resumeCount as real / jdCount as real;
    assert ratio * jdCount as real == resumeCount as real;
    if ratio < 1.0 {
      assert ratio * jdCount as real < jdCount as real;
    }
  }

  /** The score is a percentage between 0 and 100. With at most `MaxKeywords`
      keys (fewer than 200), it is 100 exactly when every key matched and 0
      exactly when none did: one key more or less always moves it by more than
      half a point. */
  lemma MatchScoreRange(jd: seq<Freq>, res: seq<Freq>)
    requires |jd| <= MaxKeywords
    ensures 0 <= MatchScore(jd, res) <= 100
    ensures jd != [] ==> (MatchScore(jd, res) == 100 <==> MissingKeys(jd, res) == [])
    ensures jd != [] ==> (MatchScore(jd, res) == 0 <==> MatchedKeys(jd, res) == [])
  {
    SelectPartition(jd, res);
    if jd != [] {
      var m, n := |MatchedKeys(jd, res)|, |jd|;
      PercentInRange(m, n);
      if m == n {
        RoundHalfEvenUnique(100 * n, n, 100);
      } else {
        RoundHalfEvenMonotonic(100 * m, 100 * n - 100, n);
        BelowFull(n);
      }
      if m == 0 {
        RoundHalfEvenUnique(0, n, 0);
      } else {
        RoundHalfEvenMonotonic(100, 100 * m, n);
        AboveZero(n);
      }
    }
  }

  /** Rounding `(100 n - 100) / n` stays below 100 while `n < 200`. */
  lemma BelowFull(n: nat)
    requires 0 < n < 200
    ensures RoundHalfEven(100 * n - 100, n) < 100
  {
    var r := RoundHalfEven(100 * n - 100, n);
    if r >= 100 {
      MulMonotone(100, r, n);
    }
  }

  /** Rounding `100 / n` stays above 0 while `n < 200`. */
  lemma AboveZero(n: nat)
    requires 0 < n < 200
    ensures RoundHalfEven(100, n) > 0
  {
    var r := RoundHalfEven(100, n);
    if r <= 0 {
      MulMonotone(r, 0, n);
    }
  }

  lemma MulMonotone(a: int, b: int, c: nat)
    requires a <= b
    ensures a * c <= b * c
  {
  }
}
