/** The handful of Python `str` operations the core relies on, written out
    so that their edge cases are explicit: `split`, `strip`, `startswith`,
    `lower`, `join`, `int(...)`, `float(...)` on decimal literals and
    `str(...)` of an integer. */
module Text {
  import opened Wrappers

  /** `c.isspace()` in Python: the ASCII whitespace characters, the
      information separators U+001C..U+001F, and the Unicode space and
      line/paragraph separators. */
  predicate IsSpace(c: char) {
    c == ' ' || c == '\t' || c == '\n' || c == '\r' || c == '\U{B}' || c == '\U{C}'
    || ('\U{1C}' <= c <= '\U{1F}') || c == '\U{85}' || c == '\U{A0}' || c == '\U{1680}'
    || ('\U{2000}' <= c <= '\U{200A}') || c == '\U{2028}' || c == '\U{2029}'
    || c == '\U{202F}' || c == '\U{205F}' || c == '\U{3000}'
  }

  predicate IsDigit(c: char) {
    '0' <= c <= '9'
  }

  /** `s.startswith(prefix)` */
  predicate StartsWith(s: string, prefix: string) {
    |prefix| <= |s| && s[..|prefix|] == prefix
  }

  /** `s.lstrip()` */
  function LStrip(s: string): (r: string)
    ensures |r| <= |s| && r == s[|s| - |r|..]
    ensures r == [] || !IsSpace(r[0])
    ensures forall i :: 0 <= i < |s| - |r| ==> IsSpace(s[i])
  {
    if |s| > 0 && IsSpace(s[0]) then LStrip(s[1..]) else s
  }

  /** `s.rstrip()` */
  function RStrip(s: string): (r: string)
    ensures |r| <= |s| && r == s[..|r|]
    ensures r == [] || !IsSpace(r[|r| - 1])
    ensures forall i :: |r| <= i < |s| ==> IsSpace(s[i])
  {
    if |s| > 0 && IsSpace(s[|s| - 1]) then RStrip(s[..|s| - 1]) else s
  }

  /** `s.strip()`: the longest slice of `s` that neither starts nor ends
      with whitespace, obtained by removing only whitespace. */
  function Strip(s: string): (r: string)
    ensures |r| <= |s|
    ensures r == [] || (!IsSpace(r[0]) && !IsSpace(r[|r| - 1]))
  {
    RStrip(LStrip(s))
  }

  /** A string with no whitespace at either end is left alone by `strip`. */
  lemma StripNoSpace(s: string)
    requires forall i :: 0 <= i < |s| ==> !IsSpace(s[i])
    ensures Strip(s) == s
  {
  }

  /** `strip` only looks at the ends: a string that neither starts nor ends
      with whitespace is left alone, whatever it holds in between. */
  lemma StripEnds(s: string)
    requires s == [] || (!IsSpace(s[0]) && !IsSpace(s[|s| - 1]))
    ensures Strip(s) == s
  {
  }

  lemma StartsWithConcat(p: string, s: string)
    ensures StartsWith(p + s, p)
  {
    assert (p + s)[..|p|] == p;
  }

  lemma StartsWithTrans(s: string, p: string, q: string)
    requires StartsWith(s, p) && StartsWith(p, q)
    ensures StartsWith(s, q)
  {
    assert s[..|q|] == s[..|p|][..|q|];
  }

  lemma ConcatAssoc(a: string, b: string, c: string)
    ensures a + b + c == a + (b + c)
  {
  }

  /** A prefix that starts with a non-space character survives `strip`,
      provided what follows it does not end with whitespace. */
  lemma StripKeepsPrefix(p: string, q: string, s: string)
    requires |p| > 0 && !IsSpace(p[0]) && StartsWith(p, q)
    requires s != [] && !IsSpace(s[|s| - 1])
    ensures StartsWith(Strip(p + s), q)
  {
    assert (p + s)[0] == p[0] && (p + s)[|p + s| - 1] == s[|s| - 1];
    StripEnds(p + s);
    StartsWithConcat(p, s);
    StartsWithTrans(p + s, p, q);
  }

  /** Leading whitespace does not change what `strip` returns. */
  lemma StripLeadingSpace(c: char, s: string)
    requires IsSpace(c)
    ensures Strip([c] + s) == Strip(s)
  {
    assert ([c] + s)[1..] == s;
  }

  /** `s.strip(chars)` for an explicit set of characters. */
  function StripChars(s: string, chars: set<char>): (r: string)
    ensures |r| <= |s|
    ensures r == [] || (r[0] !in chars && r[|r| - 1] !in chars)
    decreases |s|
  {
    if |s| > 0 && s[0] in chars then StripChars(s[1..], chars)
    else if |s| > 0 && s[|s| - 1] in chars then StripChars(s[..|s| - 1], chars)
    else s
  }

  /** The ASCII part of `s.lower()`. */
  function Lower(s: string): (r: string)
    ensures |r| == |s|
    ensures forall i :: 0 <= i < |s| ==> r[i] == LowerChar(s[i])
  {
    if s == [] then [] else [LowerChar(s[0])] + Lower(s[1..])
  }

  lemma LowerConcat(a: string, b: string)
    ensures Lower(a + b) == Lower(a) + Lower(b)
  {
    forall i | 0 <= i < |a + b|
      ensures Lower(a + b)[i] == (Lower(a) + Lower(b))[i]
    {
      if i < |a| {
        assert (a + b)[i] == a[i];
      } else {
        assert (a + b)[i] == b[i - |a|];
      }
    }
  }

  function LowerChar(c: char): char {
    if 'A' <= c <= 'Z' then (c as int - 'A' as int + 'a' as int) as char else c
  }

  /** `sep.join(parts)` */
  function Join(sep: string, parts: seq<string>): string
  {
    if |parts| == 0 then ""
    else if |parts| == 1 then parts[0]
    else parts[0] + sep + Join(sep, parts[1..])
  }

  /** `s.split(sep)` for a one-character separator: always at least one
      part, no part contains the separator. */
  function Split(s: string, sep: char): (parts: seq<string>)
    ensures |parts| >= 1
    ensures forall i :: 0 <= i < |parts| ==> sep !in parts[i]
    decreases |s|
  {
    if |s| == 0 then [""]
    else
      var rest := Split(s[1..], sep);
      if s[0] == sep then [""] + rest
      else [[s[0]] + rest[0]] + rest[1..]
  }

  /** Joining the parts of a split with the separator gives the string back. */
  lemma {:induction false} JoinSplit(s: string, sep: char)
    ensures Join([sep], Split(s, sep)) == s
    decreases |s|
  {
    if |s| > 0 {
      JoinSplit(s[1..], sep);
    }
  }

  /** Splitting a join gives the parts back, provided no part contains the
      separator (the Python identity `sep.join(ps).split(sep) == ps`). */
  lemma {:induction false} SplitJoin(parts: seq<string>, sep: char)
    requires |parts| >= 1
    requires forall i :: 0 <= i < |parts| ==> sep !in parts[i]
    ensures Split(Join([sep], parts), sep) == parts
    decreases |parts|, |parts[0]|
  {
    if |parts| == 1 {
      SplitNoSep(parts[0], sep);
    } else if parts[0] == "" {
      var tail := parts[1..];
      SplitJoin(tail, sep);
      assert Join([sep], parts) == [sep] + Join([sep], tail);
      assert ([sep] + Join([sep], tail))[1..] == Join([sep], tail);
    } else {
      var p0 := parts[0];
      var shorter := [p0[1..]] + parts[1..];
      SplitJoin(shorter, sep);
      assert Join([sep], parts) == [p0[0]] + Join([sep], shorter) by {
        assert p0 == [p0[0]] + p0[1..];
        if |parts| > 1 {
          assert shorter[1..] == parts[1..];
        }
      }
      assert ([p0[0]] + Join([sep], shorter))[1..] == Join([sep], shorter);
      assert [[p0[0]] + shorter[0]] + shorter[1..] == parts by {
        assert [p0[0]] + p0[1..] == p0;
        assert shorter[1..] == parts[1..];
      }
    }
  }

  /** Splitting at the first separator: the text before it is the first
      part, and the rest splits on its own. */
  lemma {:induction false} SplitAt(p: string, q: string, sep: char)
    requires sep !in p
    ensures Split(p + [sep] + q, sep) == [p] + Split(q, sep)
    decreases |p|
  {
    if p == [] {
      assert ([sep] + q)[1..] == q;
    } else {
      SplitAt(p[1..], q, sep);
      assert (p + [sep] + q)[1..] == p[1..] + [sep] + q;
      assert [p[0]] + p[1..] == p;
    }
  }

  /** `(p + sep + q).split(sep)[1]` is `q` when neither holds the separator. */
  lemma SecondPartAfter(p: string, q: string, sep: char)
    requires sep !in p && sep !in q
    ensures SecondPart(p + [sep] + q, sep) == Some(q)
  {
    SplitAt(p, q, sep);
    SplitNoSep(q, sep);
  }

  lemma {:induction false} SplitNoSep(s: string, sep: char)
    requires sep !in s
    ensures Split(s, sep) == [s]
    decreases |s|
  {
    if |s| > 0 {
      SplitNoSep(s[1..], sep);
      assert [s[0]] + s[1..] == s;
    }
  }

  /** `s.split(sep, 1)`: one part when `sep` does not occur, otherwise the
      text before and after its first occurrence. */
  function SplitOnce(s: string, sep: char): (parts: seq<string>)
    ensures |parts| == 1 <==> sep !in s
    ensures |parts| == 1 ==> parts[0] == s
    ensures |parts| == 2 ==> sep !in parts[0] && s == parts[0] + [sep] + parts[1]
    ensures 1 <= |parts| <= 2
    decreases |s|
  {
    if |s| == 0 then [s]
    else if s[0] == sep then ["", s[1..]]
    else
      var rest := SplitOnce(s[1..], sep);
      if |rest| == 1 then [s]
      else
        assert s == [s[0]] + s[1..];
        [[s[0]] + rest[0], rest[1]]
  }

  /** The part between the first and the second separator: `s.split(sep)[1]`. */
  function SecondPart(s: string, sep: char): Option<string> {
    var parts := Split(s, sep);
    if |parts| >= 2 then Some(parts[1]) else None
  }

  // ---- integers -----------------------------------------------------------

  /** Digits with single underscores between them, as Python's `int()` and
      `float()` accept them (`1_000`). */
  predicate DigitGroups(s: string) {
    |s| >= 1 && IsDigit(s[0]) && IsDigit(s[|s| - 1])
    && (forall i :: 0 <= i < |s| ==> IsDigit(s[i]) || s[i] == '_')
    && (forall i :: 0 <= i < |s| - 1 && s[i] == '_' ==> IsDigit(s[i + 1]))
  }

  function DigitValue(c: char): nat
    requires IsDigit(c)
  {
    c as int - '0' as int
  }

  /** The number the digits of `s` spell, underscores ignored. */
  function DigitsValue(s: string): nat
    requires forall i :: 0 <= i < |s| ==> IsDigit(s[i]) || s[i] == '_'
  {
    if s == [] then 0
    else if s[|s| - 1] == '_' then DigitsValue(s[..|s| - 1])
    else 10 * DigitsValue(s[..|s| - 1]) + DigitValue(s[|s| - 1])
  }

  /** How many digits (not underscores) `s` holds. */
  function DigitCount(s: string): nat {
    if s == [] then 0
    else DigitCount(s[..|s| - 1]) + (if IsDigit(s[|s| - 1]) then 1 else 0)
  }

  function ParseUnsigned(s: string): Option<nat> {
    if DigitGroups(s) then Some(DigitsValue(s)) else None
  }

  /** Python's `int(s)` on base-10 ASCII text: surrounding whitespace is
      ignored, then a signed numeral; anything else raises `ValueError`,
      here `None`. */
  function ParseInt(s: string): (r: Option<int>)
    ensures Strip(s) == "" ==> r == None
  {
    SignedInt(Strip(s))
  }

  /** One optional sign, then digit groups. */
  function SignedInt(t: string): Option<int> {
    if |t| > 0 && t[0] == '-' then
      match ParseUnsigned(t[1..])
      case Some(n) => Some(-(n as int))
      case None => None
    else if |t| > 0 && t[0] == '+' then
      ParseUnsigned(t[1..])
    else
      ParseUnsigned(t)
  }

  function DigitChar(d: nat): (c: char)
    requires d < 10
    ensures IsDigit(c) && DigitValue(c) == d
  {
    ('0' as int + d) as char
  }

  /** `str(n)` for `n >= 0`. */
  function NatToString(n: nat): (s: string)
    ensures |s| >= 1
    ensures forall i :: 0 <= i < |s| ==> IsDigit(s[i])
  {
    if n < 10 then [DigitChar(n)] else NatToString(n / 10) + [DigitChar(n % 10)]
  }

  /** `str(n)` */
  function IntToString(n: int): (s: string)
    ensures |s| >= 1
  {
    if n < 0 then "-" + NatToString(-n) else NatToString(n)
  }

  lemma {:induction false} NatToStringValue(n: nat)
    ensures DigitGroups(NatToString(n))
    ensures DigitsValue(NatToString(n)) == n
  {
    var s := NatToString(n);
    if n >= 10 {
      NatToStringValue(n / 10);
      assert s[..|s| - 1] == NatToString(n / 10);
    }
  }

  /** `int(str(n)) == n`: the decimal rendering used in messages and cache
      keys reads back as the same integer. */
  lemma IntToStringRoundTrip(n: int)
    ensures ParseInt(IntToString(n)) == Some(n)
  {
    IntToStringStrip(n);
    if n < 0 {
      NatToStringValue(-n);
      SignedNegative(NatToString(-n));
    } else {
      NatToStringValue(n);
      SignedUnsigned(NatToString(n));
    }
  }

  /** Bare digit groups read as their value. */
  lemma SignedUnsigned(d: string)
    requires DigitGroups(d)
    ensures SignedInt(d) == Some(DigitsValue(d) as int)
  {
  }

  /** `-` then digit groups reads as the negated value. */
  lemma SignedNegative(d: string)
    requires DigitGroups(d)
    ensures SignedInt("-" + d) == Some(-(DigitsValue(d) as int))
  {
    assert ("-" + d)[1..] == d;
  }

  /** The rendering of an integer holds no whitespace and no separator
      other than a leading `-`, so `strip` leaves it alone and no `split` on
      `:` cuts it. */
  lemma IntToStringStrip(n: int)
    ensures Strip(IntToString(n)) == IntToString(n)
    ensures ':' !in IntToString(n) && ' ' !in IntToString(n) && '\n' !in IntToString(n)
    ensures !IsSpace(IntToString(n)[|IntToString(n)| - 1])
  {
    var s := IntToString(n);
    if n < 0 {
      var d := NatToString(-n);
      assert forall i :: 1 <= i < |s| ==> s[i] == d[i - 1];
    }
    NumeralText(s);
  }

  /** Text made of digits and `-` holds no whitespace and no `:`. */
  lemma NumeralText(s: string)
    requires forall i :: 0 <= i < |s| ==> IsDigit(s[i]) || s[i] == '-'
    ensures Strip(s) == s
    ensures ':' !in s && ' ' !in s && '\n' !in s
    ensures s == [] || !IsSpace(s[|s| - 1])
  {
    StripNoSpace(s);
  }

  /** Different integers render differently. */
  lemma IntToStringInjective(m: int, n: int)
    requires IntToString(m) == IntToString(n)
    ensures m == n
  {
    IntToStringRoundTrip(m);
    IntToStringRoundTrip(n);
  }

  // ---- decimal reals --------------------------------------------------------

  function Pow10(k: nat): (p: nat)
    ensures p >= 1
  {
    if k == 0 then 1 else 10 * Pow10(k - 1)
  }

  /** The value of a decimal mantissa `12.5`, `12.`, `.5` or `12`: at least
      one digit group, at most one point. */
  function ParseMantissa(s: string): Option<real> {
    var parts := SplitOnce(s, '.');
    if |parts| == 1 then
      if DigitGroups(s) then Some(DigitsValue(s) as real) else None
    else PointedMantissa(parts[0], parts[1])
  }

  /** The value of `whole.frac`, either side possibly empty but not both. */
  function PointedMantissa(whole: string, frac: string): Option<real> {
    if (whole == [] || DigitGroups(whole)) && (frac == [] || DigitGroups(frac)) && (whole != [] || frac != []) then
      var w := if whole == [] then 0 else DigitsValue(whole);
      var f := if frac == [] then 0 else DigitsValue(frac);
      Some(w as real + f as real / Pow10(DigitCount(frac)) as real)
    else None
  }

  /** Python's `float(s)` restricted to decimal literals: surrounding
      whitespace ignored, one optional sign, then a mantissa. Exponents,
      `inf` and `nan` are not read (they give `None`). */
  function ParseDecimal(s: string): (r: Option<real>)
    ensures Strip(s) == "" ==> r == None
  {
    var t := Strip(s);
    if |t| > 0 && t[0] == '-' then
      match ParseMantissa(t[1..])
      case Some(x) => Some(-x)
      case None => None
    else if |t| > 0 && t[0] == '+' then ParseMantissa(t[1..])
    else if t == [] then None
    else ParseMantissa(t)
  }

  /** A mantissa starts with a digit or a point. */
  lemma MantissaStart(t: string)
    requires |t| > 0 && !IsDigit(t[0]) && t[0] != '.'
    ensures ParseMantissa(t) == None
  {
    var parts := SplitOnce(t, '.');
    if |parts| == 2 {
      assert parts[0][0] == t[0];
    }
  }

  /** A stripped text beginning with anything but a sign, a digit or a
      point is not a decimal number. */
  lemma DecimalStart(s: string)
    requires Strip(s) != [] && !IsDigit(Strip(s)[0]) && Strip(s)[0] !in {'-', '+', '.'}
    ensures ParseDecimal(s) == None
  {
    MantissaStart(Strip(s));
  }

  /** Text made only of ASCII digits. */
  predicate AllDigits(s: string) {
    forall i :: 0 <= i < |s| ==> IsDigit(s[i])
  }

  /** The number `<whole>.<f>`: the whole part plus the digits `f` over
      `10^|f|`. */
  function PointValue(whole: nat, f: string): real
    requires AllDigits(f)
  {
    whole as real + DigitsValue(f) as real / Pow10(|f|) as real
  }

  /** Plain digits are one digit group, and each of them counts. */
  lemma {:induction false} PlainDigits(s: string)
    requires |s| >= 1 && AllDigits(s)
    ensures DigitGroups(s) && DigitCount(s) == |s|
    decreases |s|
  {
    if |s| > 1 {
      PlainDigits(s[..|s| - 1]);
    }
  }

  /** `s.split(sep, 1)` at the first separator. */
  lemma {:induction false} SplitOnceAt(p: string, q: string, sep: char)
    requires sep !in p
    ensures SplitOnce(p + [sep] + q, sep) == [p, q]
    decreases |p|
  {
    if p == [] {
      assert ([sep] + q)[1..] == q;
    } else {
      SplitOnceAt(p[1..], q, sep);
      assert (p + [sep] + q)[1..] == p[1..] + [sep] + q;
      assert [p[0]] + p[1..] == p;
    }
  }

  /** `float(str(w)) == w`. */
  lemma DecimalWhole(w: nat)
    ensures ParseDecimal(NatToString(w)) == Some(w as real)
  {
    var t := NatToString(w);
    StripNoSpace(t);
    NatToStringValue(w);
    assert '.' !in t;
  }

  /** A numeral beginning with a digit reads as its mantissa. */
  lemma DecimalOfMantissa(t: string)
    requires |t| > 0 && IsDigit(t[0]) && Strip(t) == t
    ensures ParseDecimal(t) == ParseMantissa(t)
  {
  }

  /** `<whole>.<f>` as a mantissa: the whole part plus the fraction the
      digits `f` spell. */
  lemma MantissaFraction(whole: string, f: string)
    requires DigitGroups(whole) && |f| >= 1 && AllDigits(f)
    ensures ParseMantissa(whole + ['.'] + f) == Some(PointValue(DigitsValue(whole), f))
  {
    GroupsHaveNoPoint(whole);
    SplitOnceAt(whole, f, '.');
    PlainDigits(f);
    PointedValue(whole, f);
  }

  /** A point between two digit groups. */
  lemma PointedValue(whole: string, f: string)
    requires DigitGroups(whole) && |f| >= 1 && AllDigits(f)
    ensures PointedMantissa(whole, f) == Some(PointValue(DigitsValue(whole), f))
  {
    PlainDigits(f);
  }

  lemma GroupsHaveNoPoint(s: string)
    requires DigitGroups(s)
    ensures '.' !in s
  {
  }

  /** `float("<w>.<f>")` is `w` plus the fraction the digits `f` spell:
      `0.8` reads as 8/10, `2.50` as 2 + 50/100. */
  lemma DecimalFraction(w: nat, f: string)
    requires |f| >= 1 && AllDigits(f)
    ensures ParseDecimal(NatToString(w) + "." + f) == Some(PointValue(w, f))
  {
    var whole := NatToString(w);
    var t := whole + ['.'] + f;
    assert t == NatToString(w) + "." + f;
    NatToStringValue(w);
    PointedText(whole, f);
    DecimalOfMantissa(t);
    MantissaFraction(whole, f);
  }

  /** Digits, a point and digits hold no whitespace. */
  lemma PointedText(whole: string, f: string)
    requires DigitGroups(whole) && AllDigits(f)
    ensures Strip(whole + ['.'] + f) == whole + ['.'] + f
    ensures (whole + ['.'] + f)[0] == whole[0]
  {
    var t := whole + ['.'] + f;
    forall i | 0 <= i < |t|
      ensures !IsSpace(t[i])
    {
      if i < |whole| { assert t[i] == whole[i]; }
      else if i > |whole| { assert t[i] == f[i - |whole| - 1]; }
    }
    StripNoSpace(t);
  }

  // ---- substrings ------------------------------------------------------------

  /** `t` occurs in `s` at index `i`. */
  predicate OccursAt(s: string, t: string, i: int) {
    0 <= i && i + |t| <= |s| && s[i..i + |t|] == t
  }

  /** `t in s` on strings. */
  ghost predicate Contains(s: string, t: string) {
    exists i :: OccursAt(s, t, i)
  }

  lemma ContainsMiddle(a: string, b: string, c: string)
    ensures Contains(a + b + c, b)
  {
    assert (a + b + c)[|a|..|a| + |b|] == b;
    assert OccursAt(a + b + c, b, |a|);
  }

  lemma ContainsTrans(s: string, t: string, u: string)
    requires Contains(s, t) && Contains(t, u)
    ensures Contains(s, u)
  {
    var i :| OccursAt(s, t, i);
    var j :| OccursAt(t, u, j);
    var w := s[i..i + |t|];
    var inner := w[j..j + |u|];
    var outer := s[i + j..i + j + |u|];
    forall k | 0 <= k < |u|
      ensures inner[k] == outer[k]
    {
      assert inner[k] == w[j + k] == s[i + j + k];
    }
    assert inner == outer;
    assert OccursAt(s, u, i + j);
  }

  /** Each part occurs in the joined text. */
  lemma {:induction false} JoinContainsPart(sep: string, parts: seq<string>, k: nat)
    requires k < |parts|
    ensures Contains(Join(sep, parts), parts[k])
    decreases |parts|
  {
    if |parts| == 1 {
      ContainsMiddle([], parts[0], []);
      assert [] + parts[0] + [] == parts[0];
    } else if k == 0 {
      ContainsMiddle([], parts[0], sep + Join(sep, parts[1..]));
      assert [] + parts[0] + (sep + Join(sep, parts[1..])) == Join(sep, parts);
    } else {
      JoinContainsPart(sep, parts[1..], k - 1);
      ContainsMiddle(parts[0] + sep, Join(sep, parts[1..]), []);
      assert parts[0] + sep + Join(sep, parts[1..]) + [] == Join(sep, parts);
      ContainsTrans(Join(sep, parts), Join(sep, parts[1..]), parts[k]);
    }
  }
}
