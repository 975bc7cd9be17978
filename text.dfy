/** Character classes and the small string scanners the analyzer relies on:
    Python's `str.lower`, `str.split()`, `' '.join`, `filter(None, ...)`, the
    `in` substring test and the maximal runs that its regular expressions
    (`\b...\b`, `[.!?]+`) carve out of a text. Only the ASCII part of Python's
    Unicode character classes is modelled. */
module Text {

  predicate IsDigit(c: char) { '0' <= c <= '9' }
  predicate IsLowerLetter(c: char) { 'a' <= c <= 'z' }
  predicate IsUpperLetter(c: char) { 'A' <= c <= 'Z' }

  /** A word character of a regular expression's `\w` (letters, digits and `_`). */
  predicate IsWordChar(c: char) {
    IsLowerLetter(c) || IsUpperLetter(c) || IsDigit(c) || c == '_'
  }

  /** A separator of `str.split()` without arguments: space, `\t` `\n` `\v` `\f` `\r`
      and the four information separators `\x1c`..`\x1f`. */
  predicate IsSpace(c: char) {
    c == ' ' || (9 <= c as int <= 13) || (28 <= c as int <= 31)
  }

  /** A sentence terminator of the character class `[.!?]`. */
  predicate IsTerminator(c: char) { c == '.' || c == '!' || c == '?' }

  function LowerChar(c: char): (d: char)
    ensures !IsUpperLetter(d)
    ensures IsUpperLetter(c) ==> IsLowerLetter(d)
    ensures !IsUpperLetter(c) ==> d == c
  {
    if IsUpperLetter(c) then (c as int + 32) as char else c
  }

  /** `s.lower()`: every upper-case ASCII letter is mapped to its lower-case form. */
  function Lower(s: string): (r: string)
  {
    seq(|s|, i requires 0 <= i < |s| => LowerChar(s[i]))
  }

  predicate IsLowerCase(s: string) {
    forall i :: 0 <= i < |s| ==> !IsUpperLetter(s[i])
  }

  lemma LowerIsLowerCase(s: string)
    ensures |Lower(s)| == |s|
    ensures IsLowerCase(Lower(s))
    ensures Lower(Lower(s)) == Lower(s)
  {
  }

  /** `sep.join(parts)`. */
  function Join(parts: seq<string>, sep: string): string
  {
    if parts == [] then ""
    else if |parts| == 1 then parts[0]
    else parts[0] + sep + Join(parts[1..], sep)
  }

  /** `list(filter(None, parts))`: the empty strings (and absent values) are dropped. */
  function NonEmpty(parts: seq<string>): (r: seq<string>)
    ensures forall p :: p in r <==> p in parts && p != ""
    ensures |r| <= |parts|
  {
    if parts == [] then []
    else (if parts[0] == "" then [] else [parts[0]]) + NonEmpty(parts[1..])
  }

  /** `s[:n]` for a non-negative `n`. */
  function Take<T>(s: seq<T>, n: nat): (r: seq<T>)
    ensures |r| == if |s| <= n then |s| else n
    ensures r <= s
  {
    if |s| <= n then s else s[..n]
  }

  /** Cutting to `m` and then to `n <= m` is cutting to `n`. */
  lemma TakeTake<T>(s: seq<T>, m: nat, n: nat)
    requires n <= m
    ensures Take(Take(s, m), n) == Take(s, n)
  {
  }

  /** `t in s` for strings: `t` occurs as a contiguous piece of `s`. */
  predicate OccursAt(s: string, t: string, i: int) {
    0 <= i && i + |t| <= |s| && s[i..i + |t|] == t
  }

  predicate Contains(s: string, t: string) {
    exists i :: 0 <= i <= |s| - |t| && OccursAt(s, t, i)
  }

  lemma ContainsAppend(a: string, b: string, t: string)
    requires Contains(a, t) || Contains(b, t)
    ensures Contains(a + b, t)
  {
    if Contains(a, t) {
      var i :| 0 <= i <= |a| - |t| && OccursAt(a, t, i);
      assert (a + b)[i..i + |t|] == a[i..i + |t|];
      assert OccursAt(a + b, t, i);
    } else {
      var i :| 0 <= i <= |b| - |t| && OccursAt(b, t, i);
      assert (a + b)[|a| + i..|a| + i + |t|] == b[i..i + |t|];
      assert OccursAt(a + b, t, |a| + i);
    }
  }

  /** Lower-casing keeps what a text contains: it maps each character on its own. */
  lemma ContainsLower(s: string, t: string)
    requires Contains(s, t)
    ensures Contains(Lower(s), Lower(t))
  {
    var i :| 0 <= i <= |s| - |t| && OccursAt(s, t, i);
    assert Lower(s)[i..i + |t|] == Lower(t) by {
      forall k | 0 <= k < |t| ensures Lower(s)[i..i + |t|][k] == Lower(t)[k] {
        assert s[i + k] == t[k];
      }
    }
    assert OccursAt(Lower(s), Lower(t), i);
  }

  lemma ContainsTransitive(s: string, t: string, u: string)
    requires Contains(s, t) && Contains(t, u)
    ensures Contains(s, u)
  {
    var i :| 0 <= i <= |s| - |t| && OccursAt(s, t, i);
    var j :| 0 <= j <= |t| - |u| && OccursAt(t, u, j);
    forall k | 0 <= k < |u| ensures s[i + j + k] == u[k] {
      assert t[j + k] == u[k];
      assert s[i + (j + k)] == t[j + k];
    }
    assert s[i + j..i + j + |u|] == u;
    assert OccursAt(s, u, i + j);
  }

  /** A join of non-empty parts is empty only when there are no parts. */
  lemma JoinOfNonEmpty(parts: seq<string>, sep: string)
    requires forall p :: p in parts ==> p != ""
    ensures Join(parts, sep) == "" <==> parts == []
  {
    if |parts| > 1 {
      assert parts[0] in parts;
      assert |Join(parts, sep)| >= |parts[0]|;
    } else if |parts| == 1 {
      assert parts[0] in parts;
    }
  }

  /** Every part of a join can be found in the joined text. */
  lemma {:induction false} JoinContainsEach(parts: seq<string>, sep: string, k: nat)
    requires k < |parts|
    ensures Contains(Join(parts, sep), parts[k])
  {
    assert OccursAt(parts[k], parts[k], 0);
    if |parts| == 1 {
    } else if k == 0 {
      ContainsAppend(parts[0], sep + Join(parts[1..], sep), parts[0]);
      assert parts[0] + sep + Join(parts[1..], sep) == parts[0] + (sep + Join(parts[1..], sep));
    } else {
      JoinContainsEach(parts[1..], sep, k - 1);
      ContainsAppend(parts[0] + sep, Join(parts[1..], sep), parts[k]);
    }
  }

  /** A character occurring in a joined text occurs in one of its parts or in
      the separator. */
  lemma {:induction false} JoinCharSource(parts: seq<string>, sep: string, c: char)
    requires c in Join(parts, sep)
    ensures c in sep || exists k :: 0 <= k < |parts| && c in parts[k]
  {
    if |parts| > 1 {
      var rest := Join(parts[1..], sep);
      assert Join(parts, sep) == parts[0] + sep + rest;
      if c in parts[0] {
      } else if c in sep {
      } else {
        assert c in rest;
        JoinCharSource(parts[1..], sep, c);
        var k :| 0 <= k < |parts[1..]| && c in parts[1..][k];
        assert c in parts[k + 1];
      }
    } else if |parts| == 1 {
      assert c in parts[0];
    }
  }

  // ---------------------------------------------------------------------------
  // Maximal runs

  /** Length of the longest prefix of `s` whose characters all have `p(c) == b`. */
  function Span(s: string, p: char -> bool, b: bool): (n: nat)
    ensures n <= |s|
    ensures forall i :: 0 <= i < n ==> p(s[i]) == b
    ensures n < |s| ==> p(s[n]) != b
  {
    if s == [] || p(s[0]) != b then 0 else 1 + Span(s[1..], p, b)
  }

  /** `s[i..j]` is a maximal run of characters satisfying `p`: it is non-empty,
      all of it satisfies `p`, and it cannot be extended on either side. */
  predicate IsMaximalRun(s: string, p: char -> bool, i: int, j: int) {
    0 <= i < j <= |s|
    && (forall k :: i <= k < j ==> p(s[k]))
    && (i == 0 || !p(s[i - 1]))
    && (j == |s| || !p(s[j]))
  }

  /** The maximal runs of `p`-characters of `s`, from left to right. With
      `p` the word characters these are the candidates of `\b\w+\b`; with `p`
      the non-space characters it is `s.split()`. */
  function Runs(s: string, p: char -> bool): seq<string>
    decreases |s|
  {
    if s == [] then []
    else if !p(s[0]) then Runs(s[1..], p)
    else
      var n := Span(s, p, true);
      [s[..n]] + Runs(s[n..], p)
  }

  /** Shifting a maximal run of a suffix `s[n..]` back into `s`. */
  lemma ShiftMaximalRun(s: string, p: char -> bool, n: nat, i: int, j: int)
    requires n <= |s|
    requires IsMaximalRun(s[n..], p, i, j)
    requires i == 0 ==> n == 0 || !p(s[n - 1])
    ensures IsMaximalRun(s, p, i + n, j + n)
    ensures s[i + n..j + n] == s[n..][i..j]
  {
    forall k | i + n <= k < j + n ensures p(s[k]) {
      assert s[k] == s[n..][k - n];
    }
    if i > 0 {
      assert s[i + n - 1] == s[n..][i - 1];
    }
    if j + n < |s| {
      assert s[j + n] == s[n..][j];
    }
  }

  /** Soundness of `Runs`: each element is a maximal run of `s`. */
  lemma {:induction false} RunsAreMaximal(s: string, p: char -> bool, r: string)
    requires r in Runs(s, p)
    ensures exists i, j :: IsMaximalRun(s, p, i, j) && s[i..j] == r
    decreases |s|
  {
    if !p(s[0]) {
      RunsAreMaximal(s[1..], p, r);
      var i, j :| IsMaximalRun(s[1..], p, i, j) && s[1..][i..j] == r;
      ShiftMaximalRun(s, p, 1, i, j);
    } else {
      var n := Span(s, p, true);
      if r == s[..n] {
        assert IsMaximalRun(s, p, 0, n);
        assert s[0..n] == r;
      } else {
        assert r in Runs(s[n..], p);
        RunsAreMaximal(s[n..], p, r);
        var i, j :| IsMaximalRun(s[n..], p, i, j) && s[n..][i..j] == r;
        ShiftMaximalRun(s, p, n, i, j);
      }
    }
  }

  /** Viewing a maximal run of `s` that starts at or after `n` inside `s[n..]`. */
  lemma UnshiftMaximalRun(s: string, p: char -> bool, n: nat, i: int, j: int)
    requires IsMaximalRun(s, p, i, j)
    requires n <= i
    ensures IsMaximalRun(s[n..], p, i - n, j - n)
    ensures s[n..][i - n..j - n] == s[i..j]
  {
    var t := s[n..];
    forall k | i - n <= k < j - n ensures p(t[k]) {
      assert t[k] == s[k + n];
    }
    if i > n {
      assert t[i - n - 1] == s[i - 1];
    }
    if j < |s| {
      assert t[j - n] == s[j];
    }
  }

  /** Completeness of `Runs`: every maximal run of `s` is one of its elements. */
  lemma {:induction false} MaximalRunsAreRuns(s: string, p: char -> bool, i: int, j: int)
    requires IsMaximalRun(s, p, i, j)
    ensures s[i..j] in Runs(s, p)
    decreases |s|
  {
    if !p(s[0]) {
      UnshiftMaximalRun(s, p, 1, i, j);
      MaximalRunsAreRuns(s[1..], p, i - 1, j - 1);
    } else {
      var n := Span(s, p, true);
      if i == 0 {
        assert j == n;
      } else {
        assert i > n;
        UnshiftMaximalRun(s, p, n, i, j);
        MaximalRunsAreRuns(s[n..], p, i - n, j - n);
      }
    }
  }

  /** A prefix of non-`p` characters contributes no run. */
  lemma {:induction false} RunsSkip(s: string, p: char -> bool, k: nat)
    requires k <= |s|
    requires forall i :: 0 <= i < k ==> !p(s[i])
    ensures Runs(s, p) == Runs(s[k..], p)
    decreases k
  {
    if k > 0 {
      assert s[1..][k - 1..] == s[k..];
      RunsSkip(s[1..], p, k - 1);
    }
  }

  /** `str.split()`: the whitespace-separated words. */
  predicate IsNonSpace(c: char) { !IsSpace(c) }

  function Split(s: string): seq<string> {
    Runs(s, IsNonSpace)
  }

  /** `s.split()` is empty exactly when `s` has nothing but whitespace. */
  lemma {:induction false} SplitEmpty(s: string)
    ensures Split(s) == [] <==> forall i :: 0 <= i < |s| ==> IsSpace(s[i])
    decreases |s|
  {
    if s != [] {
      if IsSpace(s[0]) {
        SplitEmpty(s[1..]);
        assert forall i :: 1 <= i < |s| ==> s[i] == s[1..][i - 1];
      } else {
        assert Split(s) != [];
      }
    }
  }

  /** `re.split(sep, s)` for a separator `[c]+` where `p` is the character class
      `c`: the pieces between maximal separator runs, empty pieces included. */
  function SplitOn(s: string, p: char -> bool): (pieces: seq<string>)
    decreases |s|
  {
    var k := Span(s, p, false);
    if k == |s| then [s]
    else
      var m := k + Span(s[k..], p, true);
      [s[..k]] + SplitOn(s[m..], p)
  }

  /** `re.split` yields one piece more than there are maximal separator runs. */
  lemma {:induction false} SplitOnCount(s: string, p: char -> bool)
    ensures |SplitOn(s, p)| == |Runs(s, p)| + 1
    decreases |s|
  {
    var k := Span(s, p, false);
    RunsSkip(s, p, k);
    if k < |s| {
      var t := s[k..];
      var n := Span(t, p, true);
      assert p(t[0]);
      assert Runs(t, p) == [t[..n]] + Runs(t[n..], p);
      assert t[n..] == s[k + n..];
      SplitOnCount(s[k + n..], p);
    }
  }
}
