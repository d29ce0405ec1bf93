/** Python `str` operations the collector relies on: `find`, `split(sep)` and `sep.join`,
    plus fixed-width decimal digits as read by `strptime` and written by `strftime`. */
module Strings {
  import opened Results

  /** `pat` occurs in `s` starting at index `i`. */
  predicate OccursAt(s: string, pat: string, i: nat) {
    i + |pat| <= |s| && s[i..i + |pat|] == pat
  }

  /** `pat` occurs nowhere in `s` (`pat not in s`). */
  ghost predicate Free(s: string, pat: string) {
    forall i: nat :: !OccursAt(s, pat, i)
  }

  /** `s.find(pat, from)`: the leftmost occurrence at or after `from`. */
  function FindFrom(s: string, pat: string, from: nat): (r: Option<nat>)
    ensures r.Some? ==> from <= r.value && OccursAt(s, pat, r.value)
    ensures r.Some? ==> forall j: nat :: from <= j < r.value ==> !OccursAt(s, pat, j)
    ensures r.None? ==> forall j: nat :: from <= j ==> !OccursAt(s, pat, j)
    decreases |s| + 1 - from
  {
    if from + |pat| > |s| then None
    else if s[from..from + |pat|] == pat then Some(from)
    else FindFrom(s, pat, from + 1)
  }

  /** `sep.join(parts)`. */
  function Join(parts: seq<string>, sep: string): string
  {
    if |parts| == 0 then ""
    else if |parts| == 1 then parts[0]
    else parts[0] + sep + Join(parts[1..], sep)
  }

  lemma OccursInPrefix(s: string, pat: string, n: nat, j: nat)
    requires n <= |s| && OccursAt(s[..n], pat, j)
    ensures OccursAt(s, pat, j) && j + |pat| <= n
  {
    assert s[..n][j..j + |pat|] == s[j..j + |pat|];
  }

  lemma OccursInSuffix(s: string, pat: string, n: nat, j: nat)
    requires n <= |s| && OccursAt(s[n..], pat, j)
    ensures OccursAt(s, pat, n + j)
  {
    assert s[n..][j..j + |pat|] == s[n + j..n + j + |pat|];
  }

  lemma OccursInTail(s: string, pat: string, n: nat, j: nat)
    requires n <= j && OccursAt(s, pat, j)
    ensures n <= |s| && OccursAt(s[n..], pat, j - n)
  {
    assert s[n..][j - n..j - n + |pat|] == s[j..j + |pat|];
  }

  /** The text before the leftmost occurrence contains no occurrence. */
  lemma BeforeFirstIsFree(s: string, pat: string, i: nat)
    requires pat != [] && i <= |s|
    requires forall j: nat :: j < i ==> !OccursAt(s, pat, j)
    ensures Free(s[..i], pat)
  {
    forall j: nat | OccursAt(s[..i], pat, j)
      ensures false
    {
      OccursInPrefix(s, pat, i, j);
    }
  }

  /** `s.split(sep)`: cut at every leftmost, non-overlapping occurrence of `sep`. */
  function Split(s: string, sep: string): (parts: seq<string>)
    requires sep != []
    ensures |parts| >= 1
    ensures Join(parts, sep) == s
    ensures forall k :: 0 <= k < |parts| ==> Free(parts[k], sep)
    ensures |parts| == 1 <==> Free(s, sep)
    ensures |parts| >= 2 ==> forall j: nat :: j < |parts[0]| ==> !OccursAt(s, sep, j)
    decreases |s|
  {
    match FindFrom(s, sep, 0)
    case None => [s]
    case Some(i) =>
      BeforeFirstIsFree(s, sep, i);
      var rest := Split(s[i + |sep|..], sep);
      assert s == s[..i] + sep + s[i + |sep|..];
      assert ([s[..i]] + rest)[1..] == rest;
      [s[..i]] + rest
  }

  /** Splitting where the leftmost occurrence is known. */
  lemma SplitAt(s: string, sep: string, i: nat)
    requires sep != []
    requires OccursAt(s, sep, i)
    requires forall j: nat :: j < i ==> !OccursAt(s, sep, j)
    ensures Split(s, sep) == [s[..i]] + Split(s[i + |sep|..], sep)
  {
    var r := FindFrom(s, sep, 0);
    assert r.Some?;
    assert r.value == i;
  }

  lemma SplitFree(s: string, sep: string)
    requires sep != [] && Free(s, sep)
    ensures Split(s, sep) == [s]
  {
  }

  /** A separator that occurs exactly once cuts the text into the parts around it. */
  lemma SplitOnce(s: string, sep: string, before: string, after: string)
    requires sep != [] && s == before + sep + after
    requires forall i: nat :: OccursAt(s, sep, i) ==> i == |before|
    ensures Split(s, sep) == [before, after]
  {
    assert s[|before|..|before| + |sep|] == sep;
    SplitAt(s, sep, |before|);
    assert s[..|before|] == before;
    assert s[|before| + |sep|..] == after;
    forall k: nat | OccursAt(after, sep, k)
      ensures false
    {
      OccursInSuffix(s, sep, |before| + |sep|, k);
    }
    SplitFree(after, sep);
  }

  /** Two occurrences that do not overlap give at least three pieces. */
  lemma SplitDisjointOccurrences(s: string, sep: string, i: nat, j: nat)
    requires sep != []
    requires OccursAt(s, sep, i) && OccursAt(s, sep, j) && i + |sep| <= j
    ensures |Split(s, sep)| >= 3
  {
    var r := FindFrom(s, sep, 0);
    assert r.Some?;
    var k := r.value;
    assert k <= i;
    OccursInTail(s, sep, k + |sep|, j);
    var tail := s[k + |sep|..];
    assert !Free(tail, sep);
    assert Split(s, sep) == [s[..k]] + Split(tail, sep);
  }

  /** For a one-character separator, occurrence is membership. */
  lemma FreeChar(s: string, c: char)
    ensures Free(s, [c]) <==> c !in s
  {
    if c in s {
      var i :| 0 <= i < |s| && s[i] == c;
      assert OccursAt(s, [c], i);
    }
    if !Free(s, [c]) {
      var i: nat :| OccursAt(s, [c], i);
      assert s[i..i + 1][0] == s[i];
    }
  }

  /** `s.split(c)` has one more piece than `s` has copies of `c`. */
  lemma {:induction false} SplitCharCount(s: string, c: char)
    ensures |Split(s, [c])| == multiset(s)[c] + 1
    decreases |s|
  {
    match FindFrom(s, [c], 0)
    case None =>
      FreeChar(s, c);
    case Some(i) =>
      BeforeFirstIsFree(s, [c], i);
      FreeChar(s[..i], c);
      assert s[i..i + 1] == [c];
      assert s == s[..i] + [c] + s[i + 1..];
      assert multiset(s) == multiset(s[..i]) + multiset([c]) + multiset(s[i + 1..]);
      SplitCharCount(s[i + 1..], c);
  }

  /** Splitting on `c` cuts at the first `c`. */
  lemma SplitCharFirst(a: string, rest: string, c: char)
    requires c !in a
    ensures Split(a + [c] + rest, [c]) == [a] + Split(rest, [c])
  {
    var s := a + [c] + rest;
    assert s[|a|..|a| + 1] == [c];
    forall j: nat | j < |a|
      ensures !OccursAt(s, [c], j)
    {
      assert s[j..j + 1][0] == a[j];
    }
    SplitAt(s, [c], |a|);
    assert s[..|a|] == a;
    assert s[|a| + 1..] == rest;
  }

  /** The pieces of a `c`-separated string with `c`-free fields are those fields. */
  lemma SplitCharTwo(a: string, b: string, c: char)
    requires c !in a && c !in b
    ensures Split(a + [c] + b, [c]) == [a, b]
  {
    SplitCharFirst(a, b, c);
    FreeChar(b, c);
    SplitFree(b, [c]);
  }

  lemma SplitCharThree(a: string, b: string, d: string, c: char)
    requires c !in a && c !in b && c !in d
    ensures Split(a + [c] + b + [c] + d, [c]) == [a, b, d]
  {
    var rest := b + [c] + d;
    calc {
      Split(a + [c] + b + [c] + d, [c]);
      { assert a + [c] + b + [c] + d == a + [c] + rest; }
      Split(a + [c] + rest, [c]);
      { SplitCharFirst(a, rest, c); }
      [a] + Split(rest, [c]);
      { SplitCharTwo(b, d, c); }
      [a] + [b, d];
    }
  }

  /** Three pieces joined by `sep`. */
  lemma JoinThree(parts: seq<string>, sep: string)
    requires |parts| == 3
    ensures Join(parts, sep) == parts[0] + sep + parts[1] + sep + parts[2]
  {
    assert parts[1..][1..] == [parts[2]];
    assert Join(parts[1..], sep) == parts[1] + sep + parts[2];
  }

  lemma JoinTwo(parts: seq<string>, sep: string)
    requires |parts| == 2
    ensures Join(parts, sep) == parts[0] + sep + parts[1]
  {
  }

  // ---------------------------------------------------------------------------------------
  // Decimal digits

  predicate IsDigit(ch: char) {
    '0' <= ch <= '9'
  }

  predicate AllDigits(s: string) {
    forall i :: 0 <= i < |s| ==> IsDigit(s[i])
  }

  function Pow10(n: nat): (p: nat)
    ensures p >= 1
  {
    if n == 0 then 1 else 10 * Pow10(n - 1)
  }

  function DigitChar(d: nat): (ch: char)
    requires d < 10
    ensures IsDigit(ch) && ch as int - '0' as int == d
  {
    ('0' as int + d) as char
  }

  /** The number a run of ASCII digits spells, most significant first (`int(s)`). */
  function DecimalValue(s: string): (n: nat)
    requires AllDigits(s)
    ensures n < Pow10(|s|)
  {
    if s == [] then 0
    else
      var high := DecimalValue(s[..|s| - 1]);
      var low := s[|s| - 1] as int - '0' as int;
      assert high * 10 + low < Pow10(|s| - 1) * 10 by {
        assert high <= Pow10(|s| - 1) - 1;
      }
      high * 10 + low
  }

  /** `n` zero-padded to exactly `width` digits (the low `width` digits when it is wider). */
  function Decimal(n: nat, width: nat): (s: string)
    ensures |s| == width && AllDigits(s)
  {
    if width == 0 then [] else Decimal(n / 10, width - 1) + [DigitChar(n % 10)]
  }

  lemma {:induction false} DecimalRoundTrip(n: nat, width: nat)
    requires n < Pow10(width)
    ensures DecimalValue(Decimal(n, width)) == n
  {
    if width > 0 {
      var s := Decimal(n, width);
      assert s[..|s| - 1] == Decimal(n / 10, width - 1);
      DecimalRoundTrip(n / 10, width - 1);
    }
  }

  lemma {:induction false} DecimalOfValue(s: string)
    requires AllDigits(s)
    ensures Decimal(DecimalValue(s), |s|) == s
  {
    if s != [] {
      var init := s[..|s| - 1];
      var high := DecimalValue(init);
      var low := s[|s| - 1] as int - '0' as int;
      DecimalOfValue(init);
      var n := DecimalValue(s);
      assert n == high * 10 + low && 0 <= low < 10;
      assert n / 10 == high && n % 10 == low;
      assert DigitChar(low) == s[|s| - 1];
      assert s == init + [s[|s| - 1]];
    }
  }

  /** A slice that spells `n` in `width` digits reads back as `n`. */
  lemma FieldValue(text: string, i: nat, j: nat, n: nat)
    requires i <= j <= |text| && n < Pow10(j - i)
    requires text[i..j] == Decimal(n, j - i)
    ensures AllDigits(text[i..j]) && DecimalValue(text[i..j]) == n
  {
    DecimalRoundTrip(n, j - i);
  }
}
