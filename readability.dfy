/** The readability score: the average number of whitespace-separated words per
    sentence, where sentences are the pieces `re.split(r'[.!?]+', text)`
    yields, put into one of three bands. */
module Readability {
  import opened Text

  function SentenceCount(text: string): nat {
    |SplitOn(text, IsTerminator)|
  }

  function WordCount(text: string): nat {
    |Split(text)|
  }

  /** `calculate_readability` on the resume text, with the average computed
      exactly. */
  function ReadabilityScore(text: string): (score: int)
    ensures score in {0, 60, 80, 100}
  {
    if text == "" then 0
    else
      var sentences, words := SentenceCount(text), WordCount(text);
      if sentences == 0 || words == 0 then 0
      else
        var average := words as real / sentences as real;
        if 15.0 <= average <= 20.0 then 100
        else if (10.0 <= average < 15.0) || (20.0 < average <= 25.0) then 80
        else if average < 10.0 || average > 25.0 then 60
        else 70
  }

  /** `re.split` never returns an empty list: there is one sentence more than
      there are runs of terminators. */
  lemma SentenceCountPositive(text: string)
    ensures SentenceCount(text) == |Runs(text, IsTerminator)| + 1
    ensures SentenceCount(text) >= 1
  {
    SplitOnCount(text, IsTerminator);
  }

  /** `w / s` against a bound `c`, by cross-multiplication. */
  lemma AverageCompare(w: nat, s: nat, c: nat)
    requires s > 0
    ensures (c as real <= w as real / s as real) <==> c * s <= w
    ensures (w as real / s as real <= c as real) <==> w <= c * s
  {
    var avg := w as real / s as real;
    assert avg * s as real == w as real;
    assert (c * s) as real == c as real * s as real;
    if c as real <= avg {
      assert c as real * s as real <= avg * s as real;
    }
    if avg <= c as real {
      assert avg * s as real <= c as real * s as real;
    }
  }

  /** The bands in integer terms, for a text of `w` words in `s` sentences: 100
      for 15 to 20 words per sentence, 80 for 10 to 15 or 20 to 25, 60 beyond;
      the 70 fallback is never reached. */
  lemma ReadabilityBands(text: string)
    requires text != "" && WordCount(text) > 0
    ensures var w, s := WordCount(text), SentenceCount(text);
      && (ReadabilityScore(text) == 100 <==> 15 * s <= w <= 20 * s)
      && (ReadabilityScore(text) == 80 <==> (10 * s <= w < 15 * s) || (20 * s < w <= 25 * s))
      && (ReadabilityScore(text) == 60 <==> w < 10 * s || w > 25 * s)
      && ReadabilityScore(text) != 70
  {
    var w, s := WordCount(text), SentenceCount(text);
    SentenceCountPositive(text);
    AverageCompare(w, s, 10);
    AverageCompare(w, s, 15);
    AverageCompare(w, s, 20);
    AverageCompare(w, s, 25);
  }

  /** The score is one of 0, 60, 80 and 100, and it is 0 exactly when the text
      is empty or holds nothing but whitespace. */
  lemma ReadabilityValues(text: string)
    ensures ReadabilityScore(text) in {0, 60, 80, 100}
    ensures ReadabilityScore(text) == 0 <==> forall i :: 0 <= i < |text| ==> IsSpace(text[i])
  {
    SplitEmpty(text);
    if text != "" && WordCount(text) > 0 {
      ReadabilityBands(text);
    }
  }
}
