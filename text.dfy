/**
 * Character and string primitives of PHP and JavaScript that the dashboards rely on:
 * ASCII case mapping (PHP 8 strtolower/strtoupper), trimming, the PCRE `\s` class,
 * ordinal string order, decimal rendering of integers, leading-integer parsing
 * (intval, parseInt) and splitting on separator characters (explode, preg_split).
 */
module Text {
  import opened Wrappers
  import opened Seqs

  // ---------------------------------------------------------------- case mapping

  predicate IsUpperAscii(c: char) { 'A' <= c <= 'Z' }
  predicate IsLowerAscii(c: char) { 'a' <= c <= 'z' }

  function LowerChar(c: char): (d: char)
    ensures !IsUpperAscii(d)
    ensures !IsUpperAscii(c) ==> d == c
  {
    if IsUpperAscii(c) then (c as int + 32) as char else c
  }

  function UpperChar(c: char): (d: char)
    ensures !IsLowerAscii(d)
    ensures !IsLowerAscii(c) ==> d == c
  {
    if IsLowerAscii(c) then (c as int - 32) as char else c
  }

  /** PHP 8 strtolower; also used for JavaScript toLowerCase on ASCII text. */
  function Lower(s: string): (r: string)
    ensures |r| == |s|
    ensures forall i :: 0 <= i < |r| ==> r[i] == LowerChar(s[i])
  {
    seq(|s|, i requires 0 <= i < |s| => LowerChar(s[i]))
  }

  /** PHP 8 strtoupper. */
  function Upper(s: string): (r: string)
    ensures |r| == |s|
    ensures forall i :: 0 <= i < |r| ==> r[i] == UpperChar(s[i])
  {
    seq(|s|, i requires 0 <= i < |s| => UpperChar(s[i]))
  }

  lemma LowerIdentity(s: string)
    requires forall i :: 0 <= i < |s| ==> !IsUpperAscii(s[i])
    ensures Lower(s) == s
  {
  }

  /** Lowering is idempotent, and it keeps prefixes. */
  lemma LowerLower(s: string, k: nat)
    requires k <= |s|
    ensures Lower(Lower(s)) == Lower(s)
    ensures Lower(s)[..k] == Lower(s[..k])
  {
  }

  // ---------------------------------------------------------------- character classes

  /** The characters PHP's trim() strips by default: space, \t, \n, \r, \0 and \x0B. */
  predicate IsPhpTrimChar(c: char)
  {
    c == ' ' || c == '\t' || c == '\n' || c == '\r' || c == '\0' || c == 11 as char
  }

  /** The PCRE `\s` class without the u modifier: space, \t, \n, \x0B, \f and \r. */
  predicate IsPcreSpace(c: char)
  {
    c == ' ' || 9 <= c as int <= 13
  }

  /** JavaScript WhiteSpace and LineTerminator, the characters String.prototype.trim strips. */
  predicate IsJsSpace(c: char)
  {
    || IsPcreSpace(c)
    || c as int == 0xA0 || c as int == 0xFEFF || c as int == 0x1680
    || 0x2000 <= c as int <= 0x200A
    || c as int == 0x2028 || c as int == 0x2029 || c as int == 0x202F
    || c as int == 0x205F || c as int == 0x3000
  }

  predicate IsDigit(c: char) { '0' <= c <= '9' }

  // ---------------------------------------------------------------- trimming

  function TrimLeft(s: string, p: char -> bool): (r: string)
    ensures |r| <= |s| && r == s[|s| - |r|..]
    ensures r == [] || !p(r[0])
    ensures forall k :: 0 <= k < |s| - |r| ==> p(s[k])
  {
    if s != [] && p(s[0]) then TrimLeft(s[1..], p) else s
  }

  function TrimRight(s: string, p: char -> bool): (r: string)
    ensures |r| <= |s| && r == s[..|r|]
    ensures r == [] || !p(r[|r| - 1])
    ensures forall k :: |r| <= k < |s| ==> p(s[k])
  {
    if s != [] && p(s[|s| - 1]) then TrimRight(s[..|s| - 1], p) else s
  }

  /** Strip the characters of class `p` from both ends. */
  function Trim(s: string, p: char -> bool): (r: string)
    ensures r == [] || (!p(r[0]) && !p(r[|r| - 1]))
    ensures |r| <= |s|
  {
    TrimRight(TrimLeft(s, p), p)
  }

  /** A string whose ends are outside the class is its own trim. */
  lemma TrimIdentity(s: string, p: char -> bool)
    requires s == [] || (!p(s[0]) && !p(s[|s| - 1]))
    ensures Trim(s, p) == s
  {
  }

  function PhpTrim(s: string): (r: string)
    ensures r == [] || (!IsPhpTrimChar(r[0]) && !IsPhpTrimChar(r[|r| - 1]))
  {
    Trim(s, IsPhpTrimChar)
  }

  function JsTrim(s: string): (r: string)
    ensures r == [] || (!IsJsSpace(r[0]) && !IsJsSpace(r[|r| - 1]))
  {
    Trim(s, IsJsSpace)
  }

  // ---------------------------------------------------------------- ordinal order

  /**
   * Ordinal lexicographic order on strings (code unit by code unit, a proper prefix first).
   * It stands in for String.prototype.localeCompare, whose collation is locale data.
   */
  predicate LexLe(a: string, b: string)
  {
    a == [] || (b != [] && (a[0] < b[0] || (a[0] == b[0] && LexLe(a[1..], b[1..]))))
  }

  lemma {:induction false} LexLeTotal(a: string, b: string)
    ensures LexLe(a, b) || LexLe(b, a)
  {
    if a != [] && b != [] && a[0] == b[0] {
      LexLeTotal(a[1..], b[1..]);
    }
  }

  lemma {:induction false} LexLeTransitive(a: string, b: string, c: string)
    requires LexLe(a, b) && LexLe(b, c)
    ensures LexLe(a, c)
  {
    if a != [] && a[0] == b[0] && b[0] == c[0] {
      LexLeTransitive(a[1..], b[1..], c[1..]);
    }
  }

  lemma {:induction false} LexLeAntisymmetric(a: string, b: string)
    requires LexLe(a, b) && LexLe(b, a)
    ensures a == b
  {
    if a != [] && b != [] {
      LexLeAntisymmetric(a[1..], b[1..]);
      assert a == [a[0]] + a[1..] && b == [b[0]] + b[1..];
    }
  }

  // ---------------------------------------------------------------- integers as text

  function DigitChar(d: int): (c: char)
    requires 0 <= d < 10
    ensures IsDigit(c)
  {
    ('0' as int + d) as char
  }

  function DigitValue(c: char): (d: nat)
    requires IsDigit(c)
    ensures d < 10 && DigitChar(d) == c
  {
    c as int - '0' as int
  }

  predicate AllDigits(s: string)
  {
    forall i :: 0 <= i < |s| ==> IsDigit(s[i])
  }

  /** The decimal digits of a natural number, without leading zeros. */
  function NatString(n: nat): (r: string)
    ensures r != [] && AllDigits(r)
    ensures r[0] == '0' ==> n == 0
  {
    if n < 10 then [DigitChar(n)] else NatString(n / 10) + [DigitChar(n % 10)]
  }

  /** PHP (string)/sprintf('%d') and JavaScript String() of an integer. */
  function DecimalString(n: int): (r: string)
    ensures r != []
    ensures forall i :: 0 <= i < |r| ==> IsDigit(r[i]) || r[i] == '-'
  {
    if n < 0 then "-" + NatString(-n) else NatString(n)
  }

  /** The value of a string of decimal digits. */
  function DigitsValue(d: string): nat
    requires AllDigits(d)
  {
    if d == [] then 0 else DigitsValue(d[..|d| - 1]) * 10 + DigitValue(d[|d| - 1])
  }

  /** The number of decimal digits at the front of `s`. */
  function LeadingDigits(s: string): (k: nat)
    ensures k <= |s| && AllDigits(s[..k])
    ensures k < |s| ==> !IsDigit(s[k])
  {
    if s != [] && IsDigit(s[0]) then
      var k := 1 + LeadingDigits(s[1..]);
      assert s[..k] == [s[0]] + s[1..][..k - 1];
      k
    else 0
  }

  /**
   * The integer at the front of `s` after leading ASCII whitespace and an optional
   * sign; None when no digit follows. JavaScript parseInt(s, 10) with None for NaN.
   */
  function LeadingInt(s: string): Option<int>
  {
    var t := TrimLeft(s, IsPcreSpace);
    var negative := t != [] && t[0] == '-';
    var body := if t != [] && (t[0] == '-' || t[0] == '+') then t[1..] else t;
    var k := LeadingDigits(body);
    if k == 0 then None
    else
      var v: int := DigitsValue(body[..k]);
      Some(if negative then -v else v)
  }

  /** PHP intval() of a string in integer notation: 0 when no digits lead. */
  function IntVal(s: string): int
  {
    LeadingInt(s).GetOr(0)
  }

  lemma {:induction false} DigitsValueOfNatString(n: nat)
    ensures DigitsValue(NatString(n)) == n
  {
    var r := NatString(n);
    if n >= 10 {
      DigitsValueOfNatString(n / 10);
      assert r[..|r| - 1] == NatString(n / 10);
    }
  }

  lemma LeadingDigitsAll(s: string)
    requires AllDigits(s)
    ensures LeadingDigits(s) == |s|
  {
  }

  /** Reading back a rendered integer gives the integer. */
  lemma ParseDecimalString(n: int)
    ensures LeadingInt(DecimalString(n)) == Some(n)
    ensures IntVal(DecimalString(n)) == n
  {
    if n < 0 {
      ParseNegativeString(-n);
    } else {
      ParseNatString(n);
    }
  }

  lemma ParseNatString(m: nat)
    ensures LeadingInt(NatString(m)) == Some(m)
  {
    LeadingIntOfDigits(NatString(m));
    DigitsValueOfNatString(m);
  }

  lemma ParseNegativeString(m: nat)
    requires m > 0
    ensures LeadingInt("-" + NatString(m)) == Some(-(m as int))
  {
    var d := NatString(m);
    DigitsValueOfNatString(m);
    assert DigitsValue(d) == m;
    LeadingIntOfNegative(d);
  }

  /** A run of digits reads back as its value. */
  lemma LeadingIntOfDigits(d: string)
    requires d != [] && AllDigits(d)
    ensures LeadingInt(d) == Some(DigitsValue(d) as int)
  {
    assert !IsPcreSpace(d[0]);
    assert TrimLeft(d, IsPcreSpace) == d;
    var k := LeadingDigits(d);
    LeadingDigitsAll(d);
    assert d[..k] == d;
  }

  /** A run of digits after a minus sign reads back as the negated value. */
  lemma LeadingIntOfNegative(d: string)
    requires d != [] && AllDigits(d)
    ensures LeadingInt("-" + d) == Some(-(DigitsValue(d) as int))
  {
    var r := "-" + d;
    assert !IsPcreSpace(r[0]);
    assert TrimLeft(r, IsPcreSpace) == r;
    assert r[1..] == d;
    var k := LeadingDigits(d);
    LeadingDigitsAll(d);
    assert d[..k] == d;
  }

  // ---------------------------------------------------------------- splitting

  /**
   * Split at every character of class `isSep`, keeping empty pieces:
   * explode() for a one-character class, preg_split('/[...]/') in general.
   */
  function SplitBy(s: string, isSep: char -> bool): (r: seq<string>)
    ensures |r| >= 1
  {
    if s == [] then [""]
    else
      var rest := SplitBy(s[1..], isSep);
      if isSep(s[0]) then [""] + rest else [[s[0]] + rest[0]] + rest[1..]
  }

  predicate NoSep(s: string, isSep: char -> bool)
  {
    forall i :: 0 <= i < |s| ==> !isSep(s[i])
  }

  lemma {:induction false} SplitNoSep(s: string, isSep: char -> bool)
    requires NoSep(s, isSep)
    ensures SplitBy(s, isSep) == [s]
  {
    if s != [] {
      assert NoSep(s[1..], isSep);
      SplitNoSep(s[1..], isSep);
      assert !isSep(s[0]);
      var rest := SplitBy(s[1..], isSep);
      assert SplitBy(s, isSep) == [[s[0]] + rest[0]] + rest[1..];
      assert [s[0]] + s[1..] == s;
    }
  }

  /** A separator character divides the pieces of its two sides. */
  lemma {:induction false} SplitAround(a: string, x: char, b: string, isSep: char -> bool)
    requires isSep(x)
    ensures SplitBy(a + [x] + b, isSep) == SplitBy(a, isSep) + SplitBy(b, isSep)
  {
    if a == [] {
      assert a + [x] + b == [x] + b;
      assert ([x] + b)[1..] == b;
    } else {
      assert (a + [x] + b)[1..] == a[1..] + [x] + b;
      SplitAround(a[1..], x, b, isSep);
    }
  }

  /** The first piece runs up to the first separator; the rest are the pieces after it. */
  lemma SplitAtFirst(s: string, i: nat, isSep: char -> bool)
    requires i < |s| && isSep(s[i]) && NoSep(s[..i], isSep)
    ensures SplitBy(s, isSep) == [s[..i]] + SplitBy(s[i + 1..], isSep)
  {
    assert s == s[..i] + [s[i]] + s[i + 1..];
    SplitAround(s[..i], s[i], s[i + 1..], isSep);
    SplitNoSep(s[..i], isSep);
  }

  /** Splitting a join on a separator no part contains gives back the parts. */
  lemma {:induction false} SplitJoin(parts: seq<string>, sep: char, isSep: char -> bool)
    requires parts != [] && isSep(sep)
    requires forall k :: 0 <= k < |parts| ==> NoSep(parts[k], isSep)
    ensures SplitBy(Join(parts, [sep]), isSep) == parts
  {
    var last := parts[|parts| - 1];
    SplitNoSep(last, isSep);
    if |parts| > 1 {
      var front := parts[..|parts| - 1];
      SplitJoin(front, sep, isSep);
      assert Join(parts, [sep]) == Join(front, [sep]) + [sep] + last;
      SplitAround(Join(front, [sep]), sep, last, isSep);
    }
  }

}
