/**
 * The few Python built-ins the ion-notation codec relies on, stated over
 * `string` (= `seq<char>`): `str.isspace`, `str.strip()`, `str.split()`,
 * `int(token)` on a token, `str(n)` and the `{n:02d}` format, and
 * `list.index`.  Each comes with the facts the codec's proofs need.
 */
module PyText {

  // ---------------------------------------------------------------------------
  // Whitespace
  // ---------------------------------------------------------------------------

  /** The code points Python's `str.isspace()` accepts, as inclusive ranges
      in increasing order: TAB to CR, the separators FS to US and SPACE, NEL,
      NO-BREAK SPACE, OGHAM SPACE MARK, EN QUAD to HAIR SPACE, LINE and
      PARAGRAPH SEPARATOR, NARROW NO-BREAK SPACE, MEDIUM MATHEMATICAL SPACE
      and IDEOGRAPHIC SPACE. */
  const SpaceRanges: seq<(int, int)> := [
    (0x09, 0x0D), (0x1C, 0x20), (0x85, 0x85), (0xA0, 0xA0), (0x1680, 0x1680),
    (0x2000, 0x200A), (0x2028, 0x2029), (0x202F, 0x202F), (0x205F, 0x205F),
    (0x3000, 0x3000)]

  /** Whether `n` lies in one of `ranges`. */
  predicate InRanges(n: int, ranges: seq<(int, int)>)
  {
    ranges != [] && (ranges[0].0 <= n <= ranges[0].1 || InRanges(n, ranges[1..]))
  }

  /** `c.isspace()`: what `strip()` removes and `split()` splits on. */
  predicate IsSpace(c: char)
  {
    InRanges(c as int, SpaceRanges)
  }

  /** Nothing below the first range of an increasing list of ranges is in
      any of them. */
  lemma {:induction false} BelowRanges(n: int, ranges: seq<(int, int)>)
    requires forall i | 0 <= i < |ranges| :: n < ranges[i].0
    ensures !InRanges(n, ranges)
    decreases |ranges|
  {
    if ranges != [] {
      BelowRanges(n, ranges[1..]);
    }
  }

  /** SPACE is whitespace. */
  lemma SpaceIsSpace()
    ensures IsSpace(' ')
  {
    assert InRanges(' ' as int, SpaceRanges[1..]);
  }

  /** No printable ASCII character other than SPACE is whitespace. */
  lemma PrintableNotSpace(c: char)
    requires '!' <= c <= '~'
    ensures !IsSpace(c)
  {
    var n, r := c as int, SpaceRanges;
    BelowRanges(n, r[2..]);
    assert r[1..][1..] == r[2..];
    assert !InRanges(n, r[1..]);
  }

  /** On ASCII, `isspace()` holds exactly for TAB, LF, VT, FF, CR, the four
      information separators FS, GS, RS, US, and SPACE. */
  lemma AsciiSpace(c: char)
    requires c as int < 0x80
    ensures IsSpace(c) <==> c as int in {0x09, 0x0A, 0x0B, 0x0C, 0x0D, 0x1C, 0x1D, 0x1E, 0x1F, 0x20}
  {
    var n, r := c as int, SpaceRanges;
    BelowRanges(n, r[2..]);
    assert r[1..][1..] == r[2..];
    assert InRanges(n, r[1..]) <==> 0x1C <= n <= 0x20;
    assert IsSpace(c) <==> 0x09 <= n <= 0x0D || 0x1C <= n <= 0x20;
  }

  /** A non-empty string of printable ASCII characters other than SPACE. */
  predicate IsPrintable(s: string)
  {
    s != [] && forall i | 0 <= i < |s| :: '!' <= s[i] <= '~'
  }

  /** Printable ASCII text without spaces is a word. */
  lemma PrintableWord(s: string)
    requires IsPrintable(s)
    ensures IsWord(s)
  {
    forall i | 0 <= i < |s|
      ensures !IsSpace(s[i])
    {
      PrintableNotSpace(s[i]);
    }
  }

  /** Every character of `s` is whitespace (true of the empty string). */
  predicate AllSpace(s: string)
  {
    forall i | 0 <= i < |s| :: IsSpace(s[i])
  }

  /** A word: what `str.split()` can produce, a non-empty run of
      non-whitespace characters. */
  predicate IsWord(s: string)
  {
    s != [] && forall i | 0 <= i < |s| :: !IsSpace(s[i])
  }

  /** Neither end of `s` is whitespace: what `strip()` returns. */
  predicate Trimmed(s: string)
  {
    s == [] || (!IsSpace(s[0]) && !IsSpace(s[|s| - 1]))
  }

  /** Length of the whitespace run at the start of `s`. */
  function LeadingSpace(s: string): (n: nat)
    ensures n <= |s|
    ensures AllSpace(s[..n])
    ensures n < |s| ==> !IsSpace(s[n])
  {
    if s == [] || !IsSpace(s[0]) then 0
    else
      var k := LeadingSpace(s[1..]);
      assert s[..k + 1] == [s[0]] + s[1..][..k];
      k + 1
  }

  /** Length of the whitespace run at the end of `s`. */
  function TrailingSpace(s: string): (n: nat)
    ensures n <= |s|
    ensures AllSpace(s[|s| - n..])
    ensures n < |s| ==> !IsSpace(s[|s| - n - 1])
  {
    if s == [] || !IsSpace(s[|s| - 1]) then 0
    else
      var init := s[..|s| - 1];
      var k := TrailingSpace(init);
      assert s[|s| - (k + 1)..] == init[|init| - k..] + [s[|s| - 1]];
      k + 1
  }

  /** Length of the run of non-whitespace characters at the start of `s`. */
  function WordLength(s: string): (n: nat)
    ensures n <= |s|
    ensures forall i | 0 <= i < n :: !IsSpace(s[i])
    ensures n < |s| ==> IsSpace(s[n])
  {
    if s == [] || IsSpace(s[0]) then 0 else 1 + WordLength(s[1..])
  }

  // ---------------------------------------------------------------------------
  // str.strip() and str.split()
  // ---------------------------------------------------------------------------

  /** Where `strip()` stops: the end of `s` less its trailing whitespace,
      never before the end of the leading whitespace. */
  function StripEnd(s: string): (e: nat)
    ensures LeadingSpace(s) <= e <= |s|
    ensures AllSpace(s[e..])
    ensures LeadingSpace(s) < e ==> !IsSpace(s[e - 1])
  {
    var k := LeadingSpace(s);
    var t := s[k..];
    var m := TrailingSpace(t);
    assert s[|s| - m..] == t[|t| - m..];
    assert m < |t| ==> s[|s| - m - 1] == t[|t| - m - 1];
    |s| - m
  }

  /** `s.strip()`: `s` without its leading and trailing whitespace. */
  function Strip(s: string): (r: string)
    ensures Trimmed(r)
  {
    var k, e := LeadingSpace(s), StripEnd(s);
    assert k < e ==> s[k..e][0] == s[k] && s[k..e][e - k - 1] == s[e - 1];
    s[k..e]
  }

  /** What `strip()` removes is whitespace: `s` is the stripped text with an
      all-whitespace piece on each side. */
  lemma StripMiddle(s: string)
    ensures var k, e := LeadingSpace(s), StripEnd(s);
      && Strip(s) == s[k..e]
      && s == s[..k] + s[k..e] + s[e..]
      && AllSpace(s[..k])
      && AllSpace(s[e..])
  {
    SliceThree(s, LeadingSpace(s), StripEnd(s));
  }

  /** A sequence is its three slices at `k` and `e`, put back together. */
  lemma SliceThree<T>(s: seq<T>, k: nat, e: nat)
    requires k <= e <= |s|
    ensures s == s[..k] + s[k..e] + s[e..]
  {
    var u := s[..e];
    assert s == u + s[e..];
    assert u == u[..k] + u[k..];
  }

  /** `s.split()`: the maximal runs of non-whitespace characters of `s`,
      in order. */
  function Split(s: string): (words: seq<string>)
    ensures forall i | 0 <= i < |words| :: IsWord(words[i])
    decreases |s|
  {
    var t := s[LeadingSpace(s)..];
    if t == [] then []
    else
      var n := WordLength(t);
      [t[..n]] + Split(t[n..])
  }

  lemma {:induction false} LeadingSpaceAfter(pre: string, u: string)
    requires AllSpace(pre)
    ensures LeadingSpace(pre + u) == |pre| + LeadingSpace(u)
    decreases |pre|
  {
    if pre != [] {
      assert (pre + u)[1..] == pre[1..] + u;
      LeadingSpaceAfter(pre[1..], u);
    } else {
      assert pre + u == u;
    }
  }

  lemma {:induction false} TrailingSpaceBefore(u: string, post: string)
    requires AllSpace(post)
    ensures TrailingSpace(u + post) == TrailingSpace(u) + |post|
    decreases |post|
  {
    if post != [] {
      var s := u + post;
      assert s[..|s| - 1] == u + post[..|post| - 1];
      TrailingSpaceBefore(u, post[..|post| - 1]);
    } else {
      assert u + post == u;
    }
  }

  lemma {:induction false} WordLengthOfWord(w: string, rest: string)
    requires IsWord(w)
    requires rest == [] || IsSpace(rest[0])
    ensures WordLength(w + rest) == |w|
    decreases |w|
  {
    if |w| == 1 {
      assert (w + rest)[1..] == rest;
    } else {
      assert (w + rest)[1..] == w[1..] + rest;
      WordLengthOfWord(w[1..], rest);
    }
  }

  /** `strip()` returns exactly the trimmed middle of a string padded with
      whitespace: this pins down its result uniquely. */
  lemma StripPadded(pre: string, t: string, post: string)
    requires AllSpace(pre) && AllSpace(post) && Trimmed(t)
    ensures Strip(pre + t + post) == t
  {
    var s := pre + t + post;
    assert s == pre + (t + post);
    LeadingSpaceAfter(pre, t + post);
    if t == [] {
      assert t + post == post;
      LeadingSpaceAfter(post, []);
      assert post + [] == post;
      assert LeadingSpace(s) == |s|;
    } else {
      assert LeadingSpace(t + post) == 0;
      assert s[|pre|..] == t + post;
      TrailingSpaceBefore(t, post);
      assert TrailingSpace(t) == 0;
      assert (t + post)[..|t|] == t;
    }
  }

  /** Whitespace around the input does not change what `strip()` returns. */
  lemma StripIgnoresPadding(pre: string, s: string, post: string)
    requires AllSpace(pre) && AllSpace(post)
    ensures Strip(pre + s + post) == Strip(s)
  {
    var k, e := LeadingSpace(s), StripEnd(s);
    StripMiddle(s);
    Regroup(pre, s[..k], s[k..e], s[e..], post);
    StripPadded(pre + s[..k], s[k..e], s[e..] + post);
  }

  /** Moving whitespace pieces from the middle of a string to its ends. */
  lemma Regroup(pre: string, a: string, r: string, b: string, post: string)
    requires AllSpace(pre) && AllSpace(a) && AllSpace(b) && AllSpace(post)
    ensures pre + (a + r + b) + post == (pre + a) + r + (b + post)
    ensures AllSpace(pre + a) && AllSpace(b + post)
  {
  }

  /** `split()` skips leading whitespace. */
  lemma SplitAfterSpace(pre: string, u: string)
    requires AllSpace(pre)
    ensures Split(pre + u) == Split(u)
  {
    LeadingSpaceAfter(pre, u);
    assert (pre + u)[LeadingSpace(pre + u)..] == u[LeadingSpace(u)..];
  }

  /** `split()` has no words exactly when the string is all whitespace. */
  lemma SplitEmpty(s: string)
    ensures Split(s) == [] <==> AllSpace(s)
  {
    if AllSpace(s) {
      LeadingSpaceAfter(s, []);
      assert s + [] == s;
    }
  }

  /** The first word of `split()`: after leading whitespace, a word ended by
      whitespace or by the end of the string. */
  lemma SplitFirstWord(pre: string, w: string, rest: string)
    requires AllSpace(pre) && IsWord(w)
    requires rest == [] || IsSpace(rest[0])
    ensures Split(pre + w + rest) == [w] + Split(rest)
  {
    var s := pre + w + rest;
    assert s == pre + (w + rest);
    LeadingSpaceAfter(pre, w + rest);
    assert LeadingSpace(w + rest) == 0;
    assert s[|pre|..] == w + rest;
    WordLengthOfWord(w, rest);
    assert (w + rest)[..|w|] == w;
    assert (w + rest)[|w|..] == rest;
  }

  /** `split()` ignores trailing whitespace. */
  lemma {:induction false} SplitBeforeSpace(m: string, post: string)
    requires AllSpace(post)
    ensures Split(m + post) == Split(m)
    decreases |m|
  {
    var k := LeadingSpace(m);
    var t := m[k..];
    if t == [] {
      assert m[..k] == m;
      AllSpaceAppend(m, post);
      SplitEmpty(m);
      SplitEmpty(m + post);
    } else {
      var n := WordLength(t);
      var pre, w, rest := m[..k], t[..n], t[n..];
      FirstWord(m);
      AppendAssoc(pre + w, rest, post);
      assert rest + post == [] || IsSpace((rest + post)[0]);
      SplitFirstWord(pre, w, rest + post);
      SplitFirstWord(pre, w, rest);
      SplitBeforeSpace(rest, post);
    }
  }

  /** Where the first word of a string that is not all whitespace lies. */
  lemma FirstWord(m: string)
    requires m[LeadingSpace(m)..] != []
    ensures var k := LeadingSpace(m);
      var t := m[k..];
      var n := WordLength(t);
      && m == m[..k] + t[..n] + t[n..]
      && AllSpace(m[..k])
      && IsWord(t[..n])
      && (t[n..] == [] || IsSpace(t[n..][0]))
  {
    var k := LeadingSpace(m);
    SliceTwice(m, k, WordLength(m[k..]));
  }

  /** Cutting off a prefix, then cutting the remainder in two. */
  lemma SliceTwice<T>(s: seq<T>, k: nat, n: nat)
    requires k + n <= |s|
    ensures s == s[..k] + s[k..][..n] + s[k..][n..]
  {
    var t := s[k..];
    assert s == s[..k] + t;
    assert t == t[..n] + t[n..];
  }

  /** Two words written together make one word. */
  lemma WordAppend(a: string, b: string)
    requires IsWord(a) && IsWord(b)
    ensures IsWord(a + b)
  {
  }

  /** Two all-whitespace strings make one. */
  lemma AllSpaceAppend(a: string, b: string)
    requires AllSpace(a) && AllSpace(b)
    ensures AllSpace(a + b)
  {
  }

  /** Stripping before splitting changes nothing. */
  lemma SplitOfStrip(s: string)
    ensures Split(Strip(s)) == Split(s)
  {
    var k, e := LeadingSpace(s), StripEnd(s);
    StripMiddle(s);
    AppendAssoc(s[..k], s[k..e], s[e..]);
    SplitAfterSpace(s[..k], s[k..e] + s[e..]);
    SplitBeforeSpace(s[k..e], s[e..]);
  }

  lemma AppendAssoc<T>(a: seq<T>, b: seq<T>, c: seq<T>)
    ensures a + b + c == a + (b + c)
  {
  }

  /** Two words joined by one space split back into those two words. */
  lemma SplitTwoWords(a: string, b: string)
    requires IsWord(a) && IsWord(b)
    ensures Split(a + " " + b) == [a, b]
  {
    SplitTwoWordsThen(a, b, []);
    assert a + " " + b + [] == a + " " + b;
    SplitEmpty([]);
  }

  /** Two words joined by one space, then text that starts with whitespace:
      the two words come first in `split()`. */
  lemma SplitTwoWordsThen(a: string, b: string, rest: string)
    requires IsWord(a) && IsWord(b)
    requires rest == [] || IsSpace(rest[0])
    ensures Split(a + " " + b + rest) == [a, b] + Split(rest)
  {
    AppendAssoc(a, " ", b);
    AppendAssoc(a, " " + b, rest);
    SplitWordThenSpace(a, " " + b + rest);
    SplitSpaceWordThen(b, rest);
    AppendAssoc([a], [b], Split(rest));
  }

  /** A word followed by text that starts with a space. */
  lemma SplitWordThenSpace(a: string, rest: string)
    requires IsWord(a) && rest != [] && rest[0] == ' '
    ensures Split(a + rest) == [a] + Split(rest)
  {
    SpaceIsSpace();
    AppendAssoc([], a, rest);
    SplitFirstWord([], a, rest);
  }

  /** One space, a word, then text that starts with whitespace. */
  lemma SplitSpaceWordThen(b: string, rest: string)
    requires IsWord(b)
    requires rest == [] || IsSpace(rest[0])
    ensures Split(" " + b + rest) == [b] + Split(rest)
  {
    SpaceIsSpace();
    SplitFirstWord(" ", b, rest);
  }

  // ---------------------------------------------------------------------------
  // int(token), str(n) and {n:02d}
  // ---------------------------------------------------------------------------

  predicate IsDigit(c: char)
  {
    '0' <= c <= '9'
  }

  predicate AllDigits(s: string)
  {
    forall i | 0 <= i < |s| :: IsDigit(s[i])
  }

  /** One or more ASCII decimal digits. */
  predicate IsDigits(s: string)
  {
    s != [] && AllDigits(s)
  }

  /** Length of the run of ASCII digits at the start of `s`. */
  function DigitRun(s: string): (n: nat)
    ensures n <= |s|
    ensures AllDigits(s[..n])
    ensures n < |s| ==> !IsDigit(s[n])
  {
    if s == [] || !IsDigit(s[0]) then 0
    else
      var k := DigitRun(s[1..]);
      assert s[..k + 1] == [s[0]] + s[1..][..k];
      k + 1
  }

  /** The digit run of a digit string followed by a non-digit is that string. */
  lemma {:induction false} DigitRunOfDigits(d: string, rest: string)
    requires IsDigits(d)
    requires rest == [] || !IsDigit(rest[0])
    ensures DigitRun(d + rest) == |d|
    decreases |d|
  {
    assert (d + rest)[1..] == d[1..] + rest;
    if |d| > 1 {
      DigitRunOfDigits(d[1..], rest);
    }
  }

  /** The value of a string of decimal digits (0 for the empty string). */
  function DigitsValue(s: string): (v: nat)
    requires AllDigits(s)
  {
    if s == [] then 0
    else DigitsValue(s[..|s| - 1]) * 10 + (s[|s| - 1] as int - '0' as int)
  }

  function Pow10(k: nat): (p: nat)
    ensures p >= 1
  {
    if k == 0 then 1 else 10 * Pow10(k - 1)
  }

  /** `10^k` grows with `k`. */
  lemma {:induction false} Pow10Monotone(i: nat, j: nat)
    requires i <= j
    ensures Pow10(i) <= Pow10(j)
    decreases j
  {
    if i < j {
      Pow10Monotone(i, j - 1);
    }
  }

  /** Digit strings of length `k` denote values below `10^k`. */
  lemma {:induction false} DigitsValueBound(s: string)
    requires AllDigits(s)
    ensures DigitsValue(s) < Pow10(|s|)
    decreases |s|
  {
    if s != [] {
      DigitsValueBound(s[..|s| - 1]);
    }
  }

  /** Whether `int(token)` accepts a whitespace-free token: an optional sign
      followed by one or more ASCII digits. */
  predicate IsIntLiteral(s: string)
  {
    if |s| > 0 && (s[0] == '+' || s[0] == '-') then IsDigits(s[1..]) else IsDigits(s)
  }

  /** `int(token)` for a token `IsIntLiteral` accepts. */
  function ParseInt(s: string): (n: int)
    requires IsIntLiteral(s)
  {
    if s[0] == '-' then 0 - DigitsValue(s[1..])
    else if s[0] == '+' then DigitsValue(s[1..])
    else DigitsValue(s)
  }

  function DigitChar(d: nat): (c: char)
    requires d < 10
    ensures IsDigit(c) && c as int - '0' as int == d
  {
    ('0' as int + d) as char
  }

  /** `str(n)` for `n >= 0`: decimal digits without leading zeros. */
  function NatToString(n: nat): (s: string)
    ensures IsDigits(s) && DigitsValue(s) == n
    ensures |s| > 1 ==> s[0] != '0'
  {
    if n < 10 then [DigitChar(n)]
    else
      var s := NatToString(n / 10) + [DigitChar(n % 10)];
      assert s[..|s| - 1] == NatToString(n / 10);
      s
  }

  /** Values below `10^k` take at most `k` digits. */
  lemma {:induction false} NatToStringLength(n: nat, k: nat)
    requires 1 <= k && n < Pow10(k)
    ensures |NatToString(n)| <= k
    decreases n
  {
    if n >= 10 {
      NatToStringLength(n / 10, k - 1);
    }
  }

  /** `str(n)`: a minus sign for negative values, then the digits of `|n|`;
      `int()` reads it back as `n`. */
  function IntToString(n: int): (s: string)
    ensures IsIntLiteral(s) && ParseInt(s) == n
    ensures IsWord(s)
    ensures |s| >= 1 && s[0] != '+'
    ensures (s[0] == '-') <==> n < 0
    ensures var d := if n < 0 then s[1..] else s;
      IsDigits(d) && (|d| > 1 ==> d[0] != '0')
  {
    if n < 0 then
      var s := "-" + NatToString(-n);
      assert s[1..] == NatToString(-n);
      PrintableWord(s);
      s
    else
      PrintableWord(NatToString(n));
      NatToString(n)
  }

  /** `f"{n:02d}"`: `str(n)` left-padded with zeros to at least two
      characters; a longer rendering is never cut. */
  function ZeroPad2(n: int): (s: string)
    ensures IsIntLiteral(s) && ParseInt(s) == n
    ensures |s| == if |IntToString(n)| < 2 then 2 else |IntToString(n)|
    ensures n >= 0 ==> IsDigits(s)
    ensures n >= 10 || n < 0 ==> s == IntToString(n)
    ensures 0 <= n < 100 ==> s == [DigitChar(n / 10), DigitChar(n % 10)]
  {
    if 0 <= n < 10 then
      var s := "0" + NatToString(n);
      assert s[..|s| - 1] == "0" && DigitsValue("0") == 0;
      assert "0" == [DigitChar(0)];
      s
    else if 10 <= n < 100 then
      assert NatToString(n) == NatToString(n / 10) + [DigitChar(n % 10)];
      IntToString(n)
    else IntToString(n)
  }

  // ---------------------------------------------------------------------------
  // list.index and dict inversion
  // ---------------------------------------------------------------------------

  /** `xs.index(x)`: the position of the first occurrence of `x`. */
  function IndexOf(xs: seq<string>, x: string): (i: nat)
    requires x in xs
    ensures i < |xs| && xs[i] == x
    ensures forall j | 0 <= j < i :: xs[j] != x
  {
    if xs[0] == x then 0 else 1 + IndexOf(xs[1..], x)
  }

  /** No two keys of `m` share a value. */
  predicate Injective<K, V(==)>(m: map<K, V>)
  {
    forall k1, k2 | k1 in m && k2 in m && m[k1] == m[k2] :: k1 == k2
  }

  /** `{v: k for k, v in m.items()}` for a dict whose values are distinct:
      the two dicts are inverse to each other. */
  function Invert<K, V(==)>(m: map<K, V>): (inv: map<V, K>)
    requires Injective(m)
    ensures forall k | k in m :: m[k] in inv && inv[m[k]] == k
    ensures forall v | v in inv :: inv[v] in m && m[inv[v]] == v
  {
    map k | k in m :: m[k] := k
  }
}
