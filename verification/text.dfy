/**
 * The fragment of Python's `str` the repository relies on: the handle alphabet
 * `[A-Za-z0-9._]`, `isspace`/`strip`, `lower`, substring search (`in`),
 * `split`/`splitlines`/`join`, `int()` parsing and decimal rendering.
 */
module Text {
  import opened Common

  // ---------------------------------------------------------------------------
  // Character classes

  predicate IsDigit(c: char) { '0' <= c <= '9' }

  predicate IsLetter(c: char) { 'A' <= c <= 'Z' || 'a' <= c <= 'z' }

  /** The handle alphabet `[A-Za-z0-9._]` shared by every normalizer. */
  predicate IsHandleChar(c: char) { IsLetter(c) || IsDigit(c) || c == '.' || c == '_' }

  predicate IsHandle(s: string) { forall i :: 0 <= i < |s| ==> IsHandleChar(s[i]) }

  /** Python's `str.isspace`: the Unicode whitespace characters. */
  predicate IsSpace(c: char)
  {
    || c == ' '
    || '\t' <= c <= '\r'
    || '\U{1c}' <= c <= '\U{1f}'
    || c == '\U{85}' || c == '\U{a0}' || c == '\U{1680}'
    || '\U{2000}' <= c <= '\U{200a}'
    || c == '\U{2028}' || c == '\U{2029}' || c == '\U{202f}' || c == '\U{205f}' || c == '\U{3000}'
  }

  /** The line boundaries of Python's `str.splitlines`. */
  predicate IsLineBreak(c: char)
  {
    || '\n' <= c <= '\r'
    || '\U{1c}' <= c <= '\U{1e}'
    || c == '\U{85}' || c == '\U{2028}' || c == '\U{2029}'
  }

  lemma HandleCharIsNotSpace(c: char)
    requires IsHandleChar(c)
    ensures !IsSpace(c) && !IsLineBreak(c) && c != ',' && c != '@' && c != '/'
  {
  }

  predicate StartsWith(s: string, p: string) { |p| <= |s| && forall i :: 0 <= i < |p| ==> s[i] == p[i] }

  // ---------------------------------------------------------------------------
  // Filtering to the handle alphabet: `re.sub(r"[^A-Za-z0-9._]", "", s)`

  function Filter(s: string): (r: string)
    ensures IsHandle(r)
    ensures |r| <= |s|
  {
    if s == [] then []
    else
      var rest := Filter(s[1..]);
      if IsHandleChar(s[0]) then [s[0]] + rest else rest
  }

  lemma {:induction false} FilterKeepsHandles(s: string)
    requires IsHandle(s)
    ensures Filter(s) == s
  {
    if s != [] {
      FilterKeepsHandles(s[1..]);
    }
  }

  lemma FilterIdempotent(s: string)
    ensures Filter(Filter(s)) == Filter(s)
  {
    FilterKeepsHandles(Filter(s));
  }

  lemma {:induction false} FilterAppend(a: string, b: string)
    ensures Filter(a + b) == Filter(a) + Filter(b)
  {
    if a != [] {
      assert (a + b)[0] == a[0];
      assert (a + b)[1..] == a[1..] + b;
      FilterAppend(a[1..], b);
      var h := if IsHandleChar(a[0]) then [a[0]] else [];
      assert Filter(a) == h + Filter(a[1..]);
      assert Filter(a + b) == h + Filter(a[1..] + b);
    } else {
      assert a + b == b;
    }
  }

  /** Filtering drops a string that holds no handle character entirely. */
  lemma {:induction false} FilterDropsJunk(s: string)
    requires forall i :: 0 <= i < |s| ==> !IsHandleChar(s[i])
    ensures Filter(s) == []
  {
    if s != [] {
      FilterDropsJunk(s[1..]);
    }
  }

  // ---------------------------------------------------------------------------
  // strip / lstrip

  /** Number of leading whitespace characters. */
  function LeadingSpaces(s: string): (n: nat)
    ensures n <= |s|
    ensures forall i :: 0 <= i < n ==> IsSpace(s[i])
    ensures n < |s| ==> !IsSpace(s[n])
  {
    if s == [] || !IsSpace(s[0]) then 0 else 1 + LeadingSpaces(s[1..])
  }

  function TrailingSpaces(s: string): (n: nat)
    ensures n <= |s|
    ensures forall i :: |s| - n <= i < |s| ==> IsSpace(s[i])
    ensures n < |s| ==> !IsSpace(s[|s| - n - 1])
  {
    if s == [] || !IsSpace(s[|s| - 1]) then 0 else 1 + TrailingSpaces(s[..|s| - 1])
  }

  predicate Blank(s: string) { forall i :: 0 <= i < |s| ==> IsSpace(s[i]) }

  /** Where `str.strip()` cuts: `s[a..b]` is kept, everything outside it is whitespace. */
  function StripBounds(s: string): (p: (nat, nat))
    ensures p.0 <= p.1 <= |s|
    ensures Blank(s[..p.0]) && Blank(s[p.1..])
    ensures p.0 < p.1 ==> !IsSpace(s[p.0]) && !IsSpace(s[p.1 - 1])
    ensures p.0 == p.1 ==> Blank(s)
  {
    var a := LeadingSpaces(s);
    var t := s[a..];
    var n := TrailingSpaces(t);
    var b := a + |t| - n;
    assert s[b..] == t[|t| - n..];
    BlankJoin(s, a, b);
    (a, b)
  }

  lemma BlankJoin(s: string, a: nat, b: nat)
    requires a <= b <= |s|
    requires Blank(s[..a]) && Blank(s[b..])
    ensures a == b ==> Blank(s)
  {
    if a == b {
      forall i | 0 <= i < |s| ensures IsSpace(s[i]) {
        if i < a { assert s[i] == s[..a][i]; } else { assert s[i] == s[b..][i - b]; }
      }
    }
  }

  /** `r` is `s` with only whitespace cut from its two ends. */
  predicate Trims(s: string, r: string)
  {
    exists a: nat, b: nat :: a <= b <= |s| && r == s[a..b] && Blank(s[..a]) && Blank(s[b..])
  }

  /** Python's `str.strip()`: the string without leading and trailing whitespace. */
  function Strip(s: string): (r: string)
    ensures |r| <= |s|
    ensures Trims(s, r)
    ensures r != [] ==> !IsSpace(r[0]) && !IsSpace(r[|r| - 1])
    ensures r == [] <==> Blank(s)
  {
    var p := StripBounds(s);
    s[p.0..p.1]
  }

  /** Stripping cuts exactly the whitespace padding around a trimmed word. */
  lemma StripPadded(a: string, w: string, b: string)
    requires Blank(a) && Blank(b)
    requires w != [] && !IsSpace(w[0]) && !IsSpace(w[|w| - 1])
    ensures Strip(a + w + b) == w
  {
    var s := a + w + b;
    assert s[|a|] == w[0];
    var n := LeadingSpaces(s);
    assert n == |a|;
    var t := s[n..];
    assert t == w + b;
    var m := TrailingSpaces(t);
    assert t[|w| - 1] == w[|w| - 1];
    assert forall i :: |w| <= i < |t| ==> t[i] == b[i - |w|];
    assert m == |b|;
    assert s[n..n + |t| - m] == w;
  }

  /** Python's `s.lstrip(ch)`: drop every leading `ch`. */
  function LStripChar(s: string, ch: char): (r: string)
    ensures |r| <= |s|
    ensures r != [] ==> r[0] != ch
  {
    if s != [] && s[0] == ch then LStripChar(s[1..], ch) else s
  }

  /** What `lstrip` removes is a run of `ch`, and what it keeps is a suffix. */
  lemma {:induction false} LStripCharCuts(s: string, ch: char)
    ensures var r := LStripChar(s, ch); r == s[|s| - |r|..]
    ensures forall i :: 0 <= i < |s| - |LStripChar(s, ch)| ==> s[i] == ch
  {
    if s != [] && s[0] == ch {
      LStripCharCuts(s[1..], ch);
    }
  }

  /** Whitespace is outside the handle alphabet, so stripping never changes the filtered string. */
  lemma FilterStrip(s: string)
    ensures Filter(Strip(s)) == Filter(s)
  {
    var (a, b) := StripBounds(s);
    var r := Strip(s);
    assert s == s[..a] + r + s[b..];
    FilterAppend(s[..a] + r, s[b..]);
    FilterAppend(s[..a], r);
    FilterDropsBlank(s[..a]);
    FilterDropsBlank(s[b..]);
  }

  lemma FilterDropsBlank(s: string)
    requires Blank(s)
    ensures Filter(s) == []
  {
    forall i | 0 <= i < |s| ensures !IsHandleChar(s[i]) {
      if IsHandleChar(s[i]) {
        HandleCharIsNotSpace(s[i]);
      }
    }
    FilterDropsJunk(s);
  }

  /** Leading `ch` characters outside the alphabet never change the filtered string either. */
  lemma FilterLStrip(s: string, ch: char)
    requires !IsHandleChar(ch)
    ensures Filter(LStripChar(s, ch)) == Filter(s)
  {
    var r := LStripChar(s, ch);
    LStripCharCuts(s, ch);
    var k := |s| - |r|;
    assert s == s[..k] + r;
    FilterAppend(s[..k], r);
    FilterDropsJunk(s[..k]);
  }

  /** A string with no whitespace at either end is its own strip. */
  lemma StripTrimmed(s: string)
    requires s != [] ==> !IsSpace(s[0]) && !IsSpace(s[|s| - 1])
    ensures Strip(s) == s
  {
    assert LeadingSpaces(s) == 0;
    assert s[0..] == s;
    assert TrailingSpaces(s) == 0;
  }

  lemma StripHandle(s: string)
    requires IsHandle(s)
    ensures Strip(s) == s
  {
    if s != [] {
      HandleCharIsNotSpace(s[0]);
      HandleCharIsNotSpace(s[|s| - 1]);
      assert LeadingSpaces(s) == 0;
      assert TrailingSpaces(s) == 0;
    }
  }

  // ---------------------------------------------------------------------------
  // lower

  /**
   * Python's `str.lower` on the characters that matter here: ASCII capitals,
   * Latin-1 capitals, the Vietnamese capitals of U+1EA0..U+1EF8 and the
   * Kelvin sign U+212A, which lower-cases to `k`.
   */
  function LowerChar(c: char): char
  {
    if 'A' <= c <= 'Z' then (c as int + 32) as char
    else if '\U{c0}' <= c <= '\U{de}' && c != '\U{d7}' then (c as int + 32) as char
    else if '\U{1ea0}' <= c <= '\U{1ef8}' && c as int % 2 == 0 then (c as int + 1) as char
    else if c == '\U{212a}' then 'k'
    else c
  }

  function Lower(s: string): (r: string)
    ensures |r| == |s|
    ensures forall i :: 0 <= i < |s| ==> r[i] == LowerChar(s[i])
  {
    seq(|s|, i requires 0 <= i < |s| => LowerChar(s[i]))
  }

  /** Lower-case letters and digits are left alone. */
  lemma LowerKeepsLowercase(s: string)
    requires forall i :: 0 <= i < |s| ==> 'a' <= s[i] <= 'z' || IsDigit(s[i])
    ensures Lower(s) == s
  {
  }

  lemma LowerIdempotent(s: string)
    ensures Lower(Lower(s)) == Lower(s)
  {
  }

  lemma LowerHandle(s: string)
    requires IsHandle(s)
    ensures IsHandle(Lower(s))
  {
  }

  // ---------------------------------------------------------------------------
  // Substring search: `pat in text`

  predicate OccursAt(text: string, pat: string, i: nat)
  {
    i + |pat| <= |text| && text[i..i + |pat|] == pat
  }

  predicate Contains(text: string, pat: string)
  {
    exists i: nat | i <= |text| :: OccursAt(text, pat, i)
  }

  /** `any(p in text for p in pats)` */
  predicate ContainsAny(text: string, pats: seq<string>)
  {
    exists k | 0 <= k < |pats| :: Contains(text, pats[k])
  }

  lemma ContainsWitness(text: string, pat: string, i: nat)
    requires OccursAt(text, pat, i)
    ensures Contains(text, pat)
  {
  }

  /** A text that contains a longer pattern also contains every piece of it. */
  lemma ContainsPart(text: string, pat: string, j: nat, k: nat)
    requires j <= k <= |pat|
    requires Contains(text, pat)
    ensures Contains(text, pat[j..k])
  {
    var i: nat :| i <= |text| && OccursAt(text, pat, i);
    forall m | 0 <= m < k - j ensures text[i + j..i + k][m] == pat[j..k][m] {
      assert text[i + j + m] == text[i..i + |pat|][j + m];
    }
    assert text[i + j..i + k] == pat[j..k];
    assert OccursAt(text, pat[j..k], i + j);
  }

  // ---------------------------------------------------------------------------
  // Splitting and joining

  /** Which characters separate pieces. */
  datatype Sep = Whitespace | LineBreaks | Exactly(c: char)
  {
    predicate Has(c: char)
    {
      match this
      case Whitespace => IsSpace(c)
      case LineBreaks => IsLineBreak(c)
      case Exactly(d) => c == d
    }
  }

  predicate FreeOf(s: string, sep: Sep) { forall i :: 0 <= i < |s| ==> !sep.Has(s[i]) }

  /**
   * The pieces between separators, empty pieces included: Python's
   * `s.split(c)` for `Exactly(c)`.
   */
  function SplitOn(s: string, sep: Sep): (r: seq<string>)
    ensures |r| >= 1
    ensures forall k :: 0 <= k < |r| ==> FreeOf(r[k], sep)
  {
    if s == [] then [[]]
    else
      var rest := SplitOn(s[1..], sep);
      if sep.Has(s[0]) then [[]] + rest
      else [[s[0]] + rest[0]] + rest[1..]
  }

  /** `c.join(xs)` */
  function Join(xs: seq<string>, c: char): string
  {
    if xs == [] then []
    else if |xs| == 1 then xs[0]
    else xs[0] + [c] + Join(xs[1..], c)
  }

  /** Concatenation of a sequence of pieces. */
  function Concat<T>(xs: seq<seq<T>>): seq<T>
  {
    if xs == [] then [] else xs[0] + Concat(xs[1..])
  }

  lemma {:induction false} ConcatAppend<T>(xs: seq<seq<T>>, ys: seq<seq<T>>)
    ensures Concat(xs + ys) == Concat(xs) + Concat(ys)
  {
    if xs != [] {
      assert (xs + ys)[0] == xs[0];
      assert (xs + ys)[1..] == xs[1..] + ys;
      ConcatAppend(xs[1..], ys);
      assert Concat(xs + ys) == xs[0] + Concat(xs[1..] + ys);
    } else {
      assert xs + ys == ys;
    }
  }

  /** The characters of `s` that are not separators, in order. */
  function Without(s: string, sep: Sep): string
  {
    if s == [] then [] else (if sep.Has(s[0]) then [] else [s[0]]) + Without(s[1..], sep)
  }

  lemma {:induction false} WithoutAppend(a: string, b: string, sep: Sep)
    ensures Without(a + b, sep) == Without(a, sep) + Without(b, sep)
  {
    if a != [] {
      assert (a + b)[0] == a[0];
      assert (a + b)[1..] == a[1..] + b;
      WithoutAppend(a[1..], b, sep);
      var h := if sep.Has(a[0]) then [] else [a[0]];
      assert Without(a, sep) == h + Without(a[1..], sep);
      assert Without(a + b, sep) == h + Without(a[1..] + b, sep);
    } else {
      assert a + b == b;
    }
  }

  lemma {:induction false} WithoutFree(s: string, sep: Sep)
    requires FreeOf(s, sep)
    ensures Without(s, sep) == s
  {
    if s != [] {
      WithoutFree(s[1..], sep);
    }
  }

  /** Splitting loses the separators and nothing else. */
  lemma {:induction false} SplitOnContent(s: string, sep: Sep)
    ensures Concat(SplitOn(s, sep)) == Without(s, sep)
  {
    if s != [] {
      var rest := SplitOn(s[1..], sep);
      SplitOnContent(s[1..], sep);
      if !sep.Has(s[0]) {
        assert SplitOn(s, sep) == [[s[0]] + rest[0]] + rest[1..];
        assert rest == [rest[0]] + rest[1..];
      }
    }
  }

  /** Joining with a separator no piece contains, then splitting, gives the pieces back. */
  lemma {:induction false} SplitJoin(xs: seq<string>, c: char, sep: Sep)
    requires |xs| >= 1 && sep.Has(c)
    requires forall k :: 0 <= k < |xs| ==> FreeOf(xs[k], sep)
    ensures SplitOn(Join(xs, c), sep) == xs
  {
    if |xs| == 1 {
      SplitFree(xs[0], sep);
    } else {
      SplitJoin(xs[1..], c, sep);
      SplitPrefix(xs[0], Join(xs[1..], c), c, sep);
      assert xs == [xs[0]] + xs[1..];
    }
  }

  /** A separator-free string splits into itself. */
  lemma {:induction false} SplitFree(s: string, sep: Sep)
    requires FreeOf(s, sep)
    ensures SplitOn(s, sep) == [s]
  {
    if s != [] {
      SplitFree(s[1..], sep);
      assert [s[0]] + s[1..] == s;
    }
  }

  lemma {:induction false} SplitPrefix(a: string, b: string, c: char, sep: Sep)
    requires FreeOf(a, sep) && sep.Has(c)
    ensures SplitOn(a + [c] + b, sep) == [a] + SplitOn(b, sep)
  {
    if a == [] {
      assert ([] + [c] + b)[1..] == b;
    } else {
      var s := a + [c] + b;
      assert s[0] == a[0];
      assert s[1..] == a[1..] + [c] + b;
      SplitPrefix(a[1..], b, c, sep);
      assert [a[0]] + a[1..] == a;
    }
  }

  /** Python's `s.split()` with no argument: the non-empty whitespace-separated words. */
  function Words(s: string): (r: seq<string>)
    ensures forall k :: 0 <= k < |r| ==> r[k] != [] && FreeOf(r[k], Whitespace)
  {
    NonEmpty(SplitOn(s, Whitespace))
  }

  function NonEmpty(xs: seq<string>): (r: seq<string>)
    ensures forall k :: 0 <= k < |r| ==> r[k] != [] && r[k] in xs
    ensures Concat(r) == Concat(xs)
  {
    if xs == [] then []
    else
      var rest := NonEmpty(xs[1..]);
      if xs[0] == [] then rest else [xs[0]] + rest
  }

  // ---------------------------------------------------------------------------
  // Decimal numbers

  function DigitChar(d: nat): char
    requires d < 10
  {
    ('0' as int + d) as char
  }

  function DigitValue(c: char): nat
    requires IsDigit(c)
  {
    c as int - '0' as int
  }

  /** The value of a string of decimal digits. */
  function DigitsValue(s: string): nat
    requires forall i :: 0 <= i < |s| ==> IsDigit(s[i])
  {
    if s == [] then 0 else 10 * DigitsValue(s[..|s| - 1]) + DigitValue(s[|s| - 1])
  }

  /** Python's `str(n)` for a natural number. */
  function NatToString(n: nat): (r: string)
    ensures r != []
    ensures forall i :: 0 <= i < |r| ==> IsDigit(r[i])
    ensures DigitsValue(r) == n
  {
    if n < 10 then [DigitChar(n)]
    else
      var r := NatToString(n / 10) + [DigitChar(n % 10)];
      assert r[..|r| - 1] == NatToString(n / 10);
      r
  }

  /** Python's `str(i)` for an integer. */
  function IntToString(i: int): (r: string)
    ensures r != []
  {
    if i < 0 then "-" + NatToString(-i) else NatToString(i)
  }

  predicate IsDigitGroup(s: string)
  {
    && s != []
    && IsDigit(s[0]) && IsDigit(s[|s| - 1])
    && (forall i :: 0 <= i < |s| ==> IsDigit(s[i]) || s[i] == '_')
    && (forall i :: 0 <= i < |s| - 1 ==> !(s[i] == '_' && s[i + 1] == '_'))
  }

  function Digits(s: string): (r: string)
    ensures forall i :: 0 <= i < |r| ==> IsDigit(r[i])
    ensures (forall i :: 0 <= i < |s| ==> IsDigit(s[i])) ==> r == s
  {
    if s == [] then []
    else (if IsDigit(s[0]) then [s[0]] else []) + Digits(s[1..])
  }

  /**
   * Python's `int(s)` on a token without surrounding whitespace: an optional
   * sign and ASCII digits, single underscores allowed between digits.
   */
  function ParseInt(s: string): (r: Option<int>)
    ensures r.Some? ==> s != []
    ensures (s != [] && forall i :: 0 <= i < |s| ==> IsDigit(s[i])) ==> r == Some(DigitsValue(s))
  {
    if s != [] && (s[0] == '-' || s[0] == '+') then
      if IsDigitGroup(s[1..]) then
        var v: int := DigitsValue(Digits(s[1..]));
        Some(if s[0] == '-' then -v else v)
      else None
    else if IsDigitGroup(s) then Some(DigitsValue(Digits(s)))
    else None
  }

  /** Rendering an integer and parsing it back gives the integer. */
  lemma IntRoundTrip(i: int)
    ensures ParseInt(IntToString(i)) == Some(i)
  {
    if i < 0 {
      var t := NatToString(-i);
      assert IntToString(i)[1..] == t;
    }
  }
}
