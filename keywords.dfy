/** Keyword extraction: `re.findall(r'\b[a-z]{3,}\b', text)`, stop-word removal,
    `Counter` and `most_common(max_keywords)` (apps/resumes/ats_analyzer.py,
    `_extract_keywords`). A keyword map is a `dict` built from `most_common`,
    so it is ordered; it is modelled as a sequence of (word, count) entries. */
module Keywords {
  import opened Text

  /** The analyzer's stop-word set. */
  const StopWords: set<string> := {
    "the", "a", "an", "and", "or", "but", "in", "on", "at", "to", "for",
    "of", "with", "by", "from", "as", "is", "was", "are", "were", "been",
    "be", "have", "has", "had", "do", "does", "did", "will", "would",
    "should", "could", "may", "might", "must", "can", "this", "that",
    "these", "those", "i", "you", "he", "she", "it", "we", "they"
  }

  const MinLength: nat := 3
  const MaxKeywords: nat := 50

  // ---------------------------------------------------------------------------
  // Tokenizer

  /** A word `\b[a-z]{minLength,}\b` accepts, once it is known to be a whole
      word-character run: lower-case letters only, at least `minLength` of them. */
  predicate IsKeywordToken(w: string, minLength: nat) {
    |w| >= minLength && forall i :: 0 <= i < |w| ==> IsLowerLetter(w[i])
  }

  function TokensOf(runs: seq<string>, minLength: nat): (ws: seq<string>)
    ensures forall w :: w in ws <==> w in runs && IsKeywordToken(w, minLength)
  {
    if runs == [] then []
    else
      assert runs == [runs[0]] + runs[1..];
      (if IsKeywordToken(runs[0], minLength) then [runs[0]] else []) + TokensOf(runs[1..], minLength)
  }

  /** `re.findall(r'\b[a-z]{minLength,}\b', text)`. The pattern matches exactly the
      maximal word-character runs made of `a`-`z` only: a match must start and
      end at a word boundary, and every character between is a word character,
      so it can neither begin nor end inside a longer run. */
  function FindWords(text: string, minLength: nat): seq<string> {
    TokensOf(Runs(text, IsWordChar), minLength)
  }

  /** `[w for w in words if w not in self.stop_words]`. */
  function DropStopWords(words: seq<string>): (ws: seq<string>)
    ensures forall w :: w in ws <==> w in words && w !in StopWords
    ensures |ws| <= |words|
  {
    if words == [] then []
    else (if words[0] in StopWords then [] else [words[0]]) + DropStopWords(words[1..])
  }

  /** The words whose frequencies `_extract_keywords` counts. */
  function KeywordWords(text: string, minLength: nat): seq<string> {
    DropStopWords(FindWords(text, minLength))
  }

  /** Every extracted word is a whole word-character run of the text made only of
      `a`-`z`, at least `minLength` long and not a stop word. */
  lemma KeywordWordsSound(text: string, minLength: nat, w: string)
    requires w in KeywordWords(text, minLength)
    ensures w !in StopWords && IsKeywordToken(w, minLength)
    ensures exists i, j :: IsMaximalRun(text, IsWordChar, i, j) && text[i..j] == w
  {
    RunsAreMaximal(text, IsWordChar, w);
  }

  /** Conversely every such run of the text is extracted. */
  lemma KeywordWordsComplete(text: string, minLength: nat, i: int, j: int)
    requires IsMaximalRun(text, IsWordChar, i, j)
    requires IsKeywordToken(text[i..j], minLength) && text[i..j] !in StopWords
    ensures text[i..j] in KeywordWords(text, minLength)
  {
    MaximalRunsAreRuns(text, IsWordChar, i, j);
  }

  /** A digit glued to a word makes the whole run a non-keyword: "python3"
      yields no keyword at all. */
  lemma DigitSpoilsWord()
    ensures FindWords("python3", MinLength) == []
  {
    var s := "python3";
    assert forall k :: 0 <= k < |s| ==> IsWordChar(s[k]);
    assert Span(s, IsWordChar, true) == |s|;
    assert s[..|s|] == s && s[|s|..] == [];
    assert Runs(s, IsWordChar) == [s] + Runs([], IsWordChar);
    assert !IsKeywordToken(s, MinLength) by {
      assert s[6] == '3';
    }
    assert TokensOf([s], MinLength) == [] + TokensOf([], MinLength);
  }

  // ---------------------------------------------------------------------------
  // Counter

  datatype Freq = Freq(word: string, count: nat)

  function Keys(m: seq<Freq>): (ks: seq<string>)
    ensures |ks| == |m|
  {
    if m == [] then [] else [m[0].word] + Keys(m[1..])
  }

  /** `m.get(w, 0)`. */
  function Get(m: seq<Freq>, w: string): nat {
    if m == [] then 0 else if m[0].word == w then m[0].count else Get(m[1..], w)
  }

  predicate Distinct<T(==)>(s: seq<T>) {
    s == [] || (s[0] !in s[1..] && Distinct(s[1..]))
  }

  /** One `counter[w] += 1`: an existing entry grows in place, a new word is
      appended at the end (a `dict` keeps insertion order). */
  function Bump(c: seq<Freq>, w: string): seq<Freq> {
    if c == [] then [Freq(w, 1)]
    else if c[0].word == w then [Freq(w, c[0].count + 1)] + c[1..]
    else [c[0]] + Bump(c[1..], w)
  }

  /** `Counter(ws)`. */
  function Tally(ws: seq<string>): seq<Freq> {
    if ws == [] then [] else Bump(Tally(ws[..|ws| - 1]), ws[|ws| - 1])
  }

  /** The distinct elements of `ws` in order of first occurrence. */
  function Dedup<T(==)>(ws: seq<T>): seq<T> {
    if ws == [] then []
    else
      var d := Dedup(ws[..|ws| - 1]);
      if ws[|ws| - 1] in d then d else d + [ws[|ws| - 1]]
  }

  /** Position of the first occurrence of `w` in `ws`. */
  function FirstIndex<T(==)>(ws: seq<T>, w: T): (k: nat)
    requires w in ws
    ensures k < |ws| && ws[k] == w && w !in ws[..k]
  {
    if ws[0] == w then 0 else 1 + FirstIndex(ws[1..], w)
  }

  lemma {:induction false} KeysAppend(a: seq<Freq>, b: seq<Freq>)
    ensures Keys(a + b) == Keys(a) + Keys(b)
  {
    if a != [] {
      assert (a + b)[0] == a[0];
      assert (a + b)[1..] == a[1..] + b;
      KeysAppend(a[1..], b);
    } else {
      assert a + b == b;
    }
  }

  lemma {:induction false} KeysMembership(m: seq<Freq>, e: Freq)
    requires e in m
    ensures e.word in Keys(m)
  {
    if m[0] != e {
      KeysMembership(m[1..], e);
    }
  }

  lemma {:induction false} KeysIndex(m: seq<Freq>, k: nat)
    requires k < |m|
    ensures Keys(m)[k] == m[k].word
  {
    if k > 0 {
      KeysIndex(m[1..], k - 1);
    }
  }

  lemma {:induction false} BumpKeys(c: seq<Freq>, w: string)
    ensures Keys(Bump(c, w)) == if w in Keys(c) then Keys(c) else Keys(c) + [w]
  {
    if c != [] && c[0].word != w {
      BumpKeys(c[1..], w);
    }
  }

  lemma {:induction false} BumpGet(c: seq<Freq>, w: string, x: string)
    ensures Get(Bump(c, w), x) == Get(c, x) + (if x == w then 1 else 0)
  {
    if c != [] && c[0].word != w {
      BumpGet(c[1..], w, x);
    }
  }

  /** The keys of `Counter(ws)` are the distinct words in first-occurrence order. */
  lemma {:induction false} TallyKeys(ws: seq<string>)
    ensures Keys(Tally(ws)) == Dedup(ws)
  {
    if ws != [] {
      TallyKeys(ws[..|ws| - 1]);
      BumpKeys(Tally(ws[..|ws| - 1]), ws[|ws| - 1]);
    }
  }

  /** Each word is counted exactly as often as it occurs. */
  lemma {:induction false} TallyGet(ws: seq<string>, x: string)
    ensures Get(Tally(ws), x) == multiset(ws)[x]
  {
    if ws != [] {
      var init := ws[..|ws| - 1];
      TallyGet(init, x);
      BumpGet(Tally(init), ws[|ws| - 1], x);
      assert ws == init + [ws[|ws| - 1]];
    }
  }

  lemma {:induction false} DedupMembers<T>(ws: seq<T>)
    ensures forall x :: x in Dedup(ws) <==> x in ws
    ensures Distinct(Dedup(ws))
  {
    if ws != [] {
      var init := ws[..|ws| - 1];
      DedupMembers(init);
      assert ws == init + [ws[|ws| - 1]];
      var d := Dedup(init);
      if ws[|ws| - 1] !in d {
        DistinctAppend(d, ws[|ws| - 1]);
      }
    }
  }

  /** Every word `Dedup` keeps comes from the input. */
  lemma DedupSubset<T>(ws: seq<T>, x: T)
    requires x in Dedup(ws)
    ensures x in ws
  {
    DedupMembers(ws);
  }

  lemma {:induction false} DistinctAppend<T>(d: seq<T>, x: T)
    requires Distinct(d) && x !in d
    ensures Distinct(d + [x])
  {
    if d != [] {
      assert (d + [x])[1..] == d[1..] + [x];
      DistinctAppend(d[1..], x);
    }
  }

  /** The distinct words appear in `Dedup` in order of their first occurrence. */
  lemma {:induction false} DedupOrder<T>(ws: seq<T>, p: nat, q: nat)
    requires p < q < |Dedup(ws)|
    ensures Dedup(ws)[p] in ws && Dedup(ws)[q] in ws
    ensures FirstIndex(ws, Dedup(ws)[p]) < FirstIndex(ws, Dedup(ws)[q])
  {
    var init, last := ws[..|ws| - 1], ws[|ws| - 1];
    var d := Dedup(init);
    DedupMembers(init);
    DedupMembers(ws);
    assert ws == init + [last];
    assert d[p] in d;
    if q < |d| {
      assert d[q] in d;
      DedupSubset(init, d[p]);
      DedupSubset(init, d[q]);
      DedupOrder(init, p, q);
      FirstIndexPrefix(ws, init, d[p]);
      FirstIndexPrefix(ws, init, d[q]);
    } else {
      assert Dedup(ws) == d + [last] && last !in init;
      assert |Dedup(ws)| == |d| + 1 && p < |d|;
      DedupSubset(init, d[p]);
      assert Dedup(ws)[p] == d[p];
      FirstIndexPrefix(ws, init, d[p]);
      assert FirstIndex(ws, last) == |init|;
    }
  }

  lemma FirstIndexPrefix<T>(ws: seq<T>, init: seq<T>, x: T)
    requires init <= ws && x in init
    ensures FirstIndex(ws, x) == FirstIndex(init, x)
  {
    var a, b := FirstIndex(ws, x), FirstIndex(init, x);
  }

  /** In a keyed sequence whose keys are distinct, `Get` finds each entry's count. */
  lemma {:induction false} GetEntry(m: seq<Freq>, e: Freq)
    requires Distinct(Keys(m)) && e in m
    ensures Get(m, e.word) == e.count
  {
    if m[0] != e {
      assert e in m[1..];
      KeysMembership(m[1..], e);
      assert Keys(m)[1..] == Keys(m[1..]);
      GetEntry(m[1..], e);
    }
  }

  // ---------------------------------------------------------------------------
  // most_common: a stable sort on descending count

  /** Insert `x` after every entry whose count is at least `x.count`. */
  function Insert(x: Freq, s: seq<Freq>): seq<Freq> {
    if s == [] then [x]
    else if s[0].count >= x.count then [s[0]] + Insert(x, s[1..])
    else [x] + s
  }

  /** `sorted(entries, key=count, reverse=True)`, which Python guarantees stable. */
  function SortByCount(c: seq<Freq>): seq<Freq> {
    if c == [] then [] else Insert(c[|c| - 1], SortByCount(c[..|c| - 1]))
  }

  /** `Counter.most_common(n)`. */
  function MostCommon(c: seq<Freq>, n: nat): seq<Freq> {
    Take(SortByCount(c), n)
  }

  predicate NonIncreasing(s: seq<Freq>) {
    forall i, j :: 0 <= i < j < |s| ==> s[i].count >= s[j].count
  }

  /** The entries of `s` with count `v`, in their order in `s`. */
  function WithCount(s: seq<Freq>, v: nat): seq<Freq> {
    if s == [] then [] else (if s[0].count == v then [s[0]] else []) + WithCount(s[1..], v)
  }

  lemma {:induction false} WithCountAppend(a: seq<Freq>, b: seq<Freq>, v: nat)
    ensures WithCount(a + b, v) == WithCount(a, v) + WithCount(b, v)
  {
    if a != [] {
      assert (a + b)[0] == a[0];
      assert (a + b)[1..] == a[1..] + b;
      WithCountAppend(a[1..], b, v);
      var h := if a[0].count == v then [a[0]] else [];
      calc {
        WithCount(a + b, v);
        h + WithCount(a[1..] + b, v);
        h + (WithCount(a[1..], v) + WithCount(b, v));
        (h + WithCount(a[1..], v)) + WithCount(b, v);
      }
    } else {
      assert a + b == b;
    }
  }

  lemma {:induction false} WithCountNone(s: seq<Freq>, v: nat)
    requires forall i :: 0 <= i < |s| ==> s[i].count < v
    ensures WithCount(s, v) == []
  {
    if s != [] {
      WithCountNone(s[1..], v);
    }
  }

  lemma {:induction false} InsertMultiset(x: Freq, s: seq<Freq>)
    ensures multiset(Insert(x, s)) == multiset(s) + multiset{x}
  {
    if s != [] && s[0].count >= x.count {
      InsertMultiset(x, s[1..]);
      assert s == [s[0]] + s[1..];
    }
  }

  lemma {:induction false} InsertSorted(x: Freq, s: seq<Freq>)
    requires NonIncreasing(s)
    ensures NonIncreasing(Insert(x, s))
  {
    if s != [] && s[0].count >= x.count {
      InsertSorted(x, s[1..]);
      InsertMultiset(x, s[1..]);
      var t := Insert(x, s[1..]);
      forall i, j | 0 <= i < j < |[s[0]] + t| ensures ([s[0]] + t)[i].count >= ([s[0]] + t)[j].count {
        if i == 0 {
          assert ([s[0]] + t)[j] in multiset(s[1..]) + multiset{x};
        }
      }
    } else if s != [] {
      assert Insert(x, s) == [x] + s;
    }
  }

  lemma NonIncreasingTail(s: seq<Freq>)
    requires s != [] && NonIncreasing(s)
    ensures NonIncreasing(s[1..])
    ensures forall i :: 0 <= i < |s| ==> s[i].count <= s[0].count
  {
  }

  lemma WithCountCons(y: Freq, t: seq<Freq>, v: nat)
    ensures WithCount([y] + t, v) == (if y.count == v then [y] else []) + WithCount(t, v)
  {
    assert ([y] + t)[1..] == t;
  }

  /** An entry inserted behind the head leaves the head's contribution in front. */
  lemma InsertBehindHead(x: Freq, s: seq<Freq>, v: nat, extra: seq<Freq>)
    requires s != [] && s[0].count >= x.count
    requires WithCount(Insert(x, s[1..]), v) == WithCount(s[1..], v) + extra
    ensures WithCount(Insert(x, s), v) == WithCount(s, v) + extra
  {
    assert Insert(x, s) == [s[0]] + Insert(x, s[1..]);
    assert s == [s[0]] + s[1..];
    WithCountCons(s[0], Insert(x, s[1..]), v);
    WithCountCons(s[0], s[1..], v);
  }

  /** An entry placed in front of entries of smaller count. */
  lemma InsertFrontWithCount(x: Freq, s: seq<Freq>, v: nat)
    requires s != [] && NonIncreasing(s) && s[0].count < x.count
    ensures WithCount([x] + s, v) == WithCount(s, v) + (if x.count == v then [x] else [])
  {
    assert ([x] + s)[1..] == s;
    if x.count == v {
      NonIncreasingTail(s);
      WithCountNone(s, v);
    }
  }

  lemma {:induction false} InsertWithCount(x: Freq, s: seq<Freq>, v: nat)
    requires NonIncreasing(s)
    ensures WithCount(Insert(x, s), v) == WithCount(s, v) + (if x.count == v then [x] else [])
  {
    if s == [] {
    } else if s[0].count >= x.count {
      NonIncreasingTail(s);
      InsertWithCount(x, s[1..], v);
      InsertBehindHead(x, s, v, if x.count == v then [x] else []);
    } else {
      InsertFrontWithCount(x, s, v);
    }
  }

  lemma {:induction false} InsertKeys(x: Freq, s: seq<Freq>)
    ensures forall w :: w in Keys(Insert(x, s)) <==> w in Keys(s) || w == x.word
  {
    if s == [] {
      assert Keys([x]) == [x.word];
    } else if s[0].count >= x.count {
      InsertKeys(x, s[1..]);
      KeysAppend([s[0]], Insert(x, s[1..]));
      KeysAppend([s[0]], s[1..]);
      assert s == [s[0]] + s[1..];
      assert Keys([s[0]]) == [s[0].word];
    } else {
      KeysAppend([x], s);
      assert Keys([x]) == [x.word];
    }
  }

  lemma {:induction false} SortPermutes(c: seq<Freq>)
    ensures NonIncreasing(SortByCount(c))
    ensures multiset(SortByCount(c)) == multiset(c)
  {
    if c != [] {
      var init, last := c[..|c| - 1], c[|c| - 1];
      SortPermutes(init);
      InsertSorted(last, SortByCount(init));
      InsertMultiset(last, SortByCount(init));
      assert c == init + [last];
    }
  }

  lemma {:induction false} SortKeepsTies(c: seq<Freq>, v: nat)
    ensures WithCount(SortByCount(c), v) == WithCount(c, v)
  {
    if c != [] {
      var init, last := c[..|c| - 1], c[|c| - 1];
      var sorted := SortByCount(init);
      assert NonIncreasing(sorted) by {
        SortPermutes(init);
      }
      calc {
        WithCount(SortByCount(c), v);
        WithCount(Insert(last, sorted), v);
        { InsertWithCount(last, sorted, v); }
        WithCount(sorted, v) + WithCount([last], v);
        { SortKeepsTies(init, v); }
        WithCount(init, v) + WithCount([last], v);
        { WithCountAppend(init, [last], v); assert c == init + [last]; }
        WithCount(c, v);
      }
    }
  }

  lemma SortFacts(c: seq<Freq>)
    ensures NonIncreasing(SortByCount(c))
    ensures multiset(SortByCount(c)) == multiset(c)
    ensures forall v :: WithCount(SortByCount(c), v) == WithCount(c, v)
  {
    SortPermutes(c);
    forall v ensures WithCount(SortByCount(c), v) == WithCount(c, v) {
      SortKeepsTies(c, v);
    }
  }

  /** Keys stay distinct through the sort. */
  lemma {:induction false} InsertDistinct(x: Freq, s: seq<Freq>)
    requires NonIncreasing(s) && Distinct(Keys(s)) && x.word !in Keys(s)
    ensures Distinct(Keys(Insert(x, s)))
  {
    if s != [] && s[0].count >= x.count {
      assert Keys(s) == [s[0].word] + Keys(s[1..]);
      assert NonIncreasing(s[1..]);
      InsertDistinct(x, s[1..]);
      InsertKeys(x, s[1..]);
      KeysAppend([s[0]], Insert(x, s[1..]));
    } else if s != [] {
      KeysAppend([x], s);
    }
  }

  lemma {:induction false} SortKeys(c: seq<Freq>)
    requires Distinct(Keys(c))
    ensures Distinct(Keys(SortByCount(c)))
    ensures forall w :: w in Keys(SortByCount(c)) <==> w in Keys(c)
  {
    if c != [] {
      var init, last := c[..|c| - 1], c[|c| - 1];
      assert c == init + [last];
      KeysAppend(init, [last]);
      assert Keys([last]) == [last.word];
      DistinctPrefixSuffix(Keys(init), [last.word]);
      SortKeys(init);
      SortPermutes(init);
      InsertDistinct(last, SortByCount(init));
      InsertKeys(last, SortByCount(init));
    }
  }

  lemma {:induction false} DistinctPrefixSuffix<T>(a: seq<T>, b: seq<T>)
    requires Distinct(a + b)
    ensures Distinct(a) && forall x :: x in a ==> x !in b
  {
    if a != [] {
      assert (a + b)[1..] == a[1..] + b;
      DistinctPrefixSuffix(a[1..], b);
    }
  }

  lemma {:induction false} DistinctPrefix<T>(s: seq<T>, n: nat)
    requires Distinct(s) && n <= |s|
    ensures Distinct(s[..n])
  {
    assert s == s[..n] + s[n..];
    DistinctPrefixSuffix(s[..n], s[n..]);
  }

  lemma {:induction false} KeysPrefix(m: seq<Freq>, n: nat)
    requires n <= |m|
    ensures Keys(m[..n]) == Keys(m)[..n]
  {
    assert m == m[..n] + m[n..];
    KeysAppend(m[..n], m[n..]);
  }

  // ---------------------------------------------------------------------------
  // _extract_keywords

  /** `dict(Counter(words).most_common(maxKeywords))` over the non-stop-word tokens. */
  function ExtractKeywords(text: string, minLength: nat, maxKeywords: nat): (r: seq<Freq>)
    ensures |r| <= maxKeywords
  {
    MostCommon(Tally(KeywordWords(text, minLength)), maxKeywords)
  }

  /** The counter built from `ws` has distinct keys, one per distinct word of `ws`. */
  lemma TallyShape(ws: seq<string>)
    ensures Distinct(Keys(Tally(ws)))
    ensures forall w :: w in Keys(Tally(ws)) <==> w in ws
    ensures |Tally(ws)| == |Dedup(ws)|
  {
    TallyKeys(ws);
    DedupMembers(ws);
  }

  /** At most `maxKeywords` entries with distinct keys; all of them when there are
      fewer distinct words than that. */
  lemma ExtractKeywordsSize(text: string, minLength: nat, maxKeywords: nat)
    ensures var r := ExtractKeywords(text, minLength, maxKeywords);
      var distinct := |Dedup(KeywordWords(text, minLength))|;
      |r| == (if distinct <= maxKeywords then distinct else maxKeywords)
      && Distinct(Keys(r))
  {
    var c := Tally(KeywordWords(text, minLength));
    TallyShape(KeywordWords(text, minLength));
    SortFacts(c);
    assert |multiset(SortByCount(c))| == |multiset(c)|;
    SortKeys(c);
    var s := SortByCount(c);
    if |s| > maxKeywords {
      KeysPrefix(s, maxKeywords);
      DistinctPrefix(Keys(s), maxKeywords);
    }
  }

  /** Every entry is a keyword of the text with its exact number of occurrences,
      so every count is at least one. */
  lemma ExtractKeywordsCounts(text: string, minLength: nat, maxKeywords: nat, e: Freq)
    requires e in ExtractKeywords(text, minLength, maxKeywords)
    ensures e.word in KeywordWords(text, minLength)
    ensures e.count == multiset(KeywordWords(text, minLength))[e.word] >= 1
    ensures Get(ExtractKeywords(text, minLength, maxKeywords), e.word) == e.count
  {
    var ws := KeywordWords(text, minLength);
    var c := Tally(ws);
    TallyShape(ws);
    SortFacts(c);
    assert e in SortByCount(c);
    assert e in multiset(c);
    KeysMembership(c, e);
    GetEntry(c, e);
    TallyGet(ws, e.word);
    ExtractKeywordsSize(text, minLength, maxKeywords);
    GetEntry(ExtractKeywords(text, minLength, maxKeywords), e);
  }

  /** Counts never increase along the result, and entries with equal counts keep
      the counter's order, which is the order of first occurrence in the text. */
  lemma ExtractKeywordsOrder(text: string, minLength: nat, maxKeywords: nat)
    ensures var r := ExtractKeywords(text, minLength, maxKeywords);
      var c := Tally(KeywordWords(text, minLength));
      NonIncreasing(r)
      && Keys(c) == Dedup(KeywordWords(text, minLength))
      && forall v :: WithCount(r, v) <= WithCount(c, v)
  {
    var ws := KeywordWords(text, minLength);
    var c := Tally(ws);
    var s := SortByCount(c);
    SortPermutes(c);
    TakeNonIncreasing(s, maxKeywords);
    TallyKeys(ws);
    forall v ensures WithCount(Take(s, maxKeywords), v) <= WithCount(c, v) {
      SortKeepsTies(c, v);
      TakeWithCount(s, maxKeywords, v);
    }
  }

  lemma TakeNonIncreasing(s: seq<Freq>, n: nat)
    requires NonIncreasing(s)
    ensures NonIncreasing(Take(s, n))
  {
  }

  /** Cutting a list keeps a prefix of the entries of each count. */
  lemma TakeWithCount(s: seq<Freq>, n: nat, v: nat)
    ensures WithCount(Take(s, n), v) <= WithCount(s, v)
  {
    var r := Take(s, n);
    assert s == r + s[|r|..];
    WithCountAppend(r, s[|r|..], v);
  }

  /** The result holds the most frequent words: a word left out means the map is
      full and every kept entry is at least as frequent. */
  lemma ExtractKeywordsTop(text: string, minLength: nat, maxKeywords: nat, w: string)
    requires w in KeywordWords(text, minLength)
    requires w !in Keys(ExtractKeywords(text, minLength, maxKeywords))
    ensures |ExtractKeywords(text, minLength, maxKeywords)| == maxKeywords
    ensures forall e :: e in ExtractKeywords(text, minLength, maxKeywords) ==>
      e.count >= multiset(KeywordWords(text, minLength))[w]
  {
    var ws := KeywordWords(text, minLength);
    var c := Tally(ws);
    TallyShape(ws);
    TallyGet(ws, w);
    SortFacts(c);
    SortKeys(c);
    MostCommonTop(c, maxKeywords, w);
  }

  /** Within a counter with distinct keys, `most_common(n)` leaves out a key only
      when it is full, and only keys no more frequent than any it keeps. */
  lemma MostCommonTop(c: seq<Freq>, n: nat, w: string)
    requires Distinct(Keys(c)) && w in Keys(c)
    requires w !in Keys(MostCommon(c, n))
    ensures |MostCommon(c, n)| == n
    ensures forall e :: e in MostCommon(c, n) ==> e.count >= Get(c, w)
  {
    var s := SortByCount(c);
    var r := MostCommon(c, n);
    SortFacts(c);
    SortKeys(c);
    var k :| 0 <= k < |Keys(s)| && Keys(s)[k] == w;
    KeysIndex(s, k);
    if k < |r| {
      KeysPrefix(s, |r|);
    }
    assert s[k] in multiset(c);
    GetEntry(c, s[k]);
    forall e | e in r ensures e.count >= Get(c, w) {
      var i :| 0 <= i < |r| && r[i] == e;
      assert s[i] == e;
    }
  }
}
