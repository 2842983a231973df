/**
 * Character and string primitives the application borrows from JavaScript:
 * `includes`, `trim`, the `\d` class, `Number.prototype.toString` on integers
 * and the character-code order of strings.
 */
module Strings {

  /** The regular-expression class `\d`: an ASCII decimal digit. */
  predicate IsDigit(c: char) {
    '0' <= c <= '9'
  }

  predicate AllDigits(s: string) {
    forall i | 0 <= i < |s| :: IsDigit(s[i])
  }

  function DigitChar(d: nat): (c: char)
    requires d < 10
    ensures IsDigit(c)
  {
    (('0' as int) + d) as char
  }

  function DigitValue(c: char): (d: nat)
    requires IsDigit(c)
    ensures d < 10 && DigitChar(d) == c
  {
    (c as int) - ('0' as int)
  }

  /** The number a string of decimal digits denotes, most significant digit first. */
  function DigitsValue(s: string): nat
    requires AllDigits(s)
  {
    if |s| == 0 then 0 else 10 * DigitsValue(s[..|s| - 1]) + DigitValue(s[|s| - 1])
  }

  /** `n.toString()` for a non-negative integer: no leading zero, and it reads back as `n`. */
  function NatToString(n: nat): (r: string)
    ensures 0 < |r| && AllDigits(r)
    ensures DigitsValue(r) == n
    ensures |r| > 1 ==> r[0] != '0'
    decreases n
  {
    if n < 10 then [DigitChar(n)]
    else
      var front := NatToString(n / 10);
      var r := front + [DigitChar(n % 10)];
      assert r[..|r| - 1] == front;
      r
  }

  /** A digit string without its leading zeros, keeping one digit. */
  function TrimZeros(d: string): string
    decreases |d|
  {
    if |d| > 1 && d[0] == '0' then TrimZeros(d[1..]) else d
  }

  /** The canonical text of a digit string's value is the string without its leading zeros. */
  lemma {:induction false} NatTextOfDigits(d: string)
    requires AllDigits(d) && d != ""
    ensures NatToString(DigitsValue(d)) == TrimZeros(d)
    decreases |d|
  {
    if |d| > 1 && d[0] == '0' {
      LeadingZero(d);
      NatTextOfDigits(d[1..]);
    } else {
      CanonicalDigits(d);
    }
  }

  /** A leading zero adds nothing to the value. */
  lemma {:induction false} LeadingZero(d: string)
    requires AllDigits(d) && |d| > 1 && d[0] == '0'
    ensures DigitsValue(d) == DigitsValue(d[1..])
    decreases |d|
  {
    if |d| > 2 {
      LeadingZero(d[..|d| - 1]);
      assert d[..|d| - 1][1..] == d[1..][..|d[1..]| - 1];
    } else {
      assert d[..|d| - 1] == "0";
      assert DigitsValue(d[..1]) == DigitsValue(d[..1][..0]) * 10 + DigitValue('0');
    }
  }

  /** A digit string without a leading zero (or a single digit) is the canonical text of its value. */
  lemma {:induction false} CanonicalDigits(d: string)
    requires AllDigits(d) && d != "" && (|d| == 1 || d[0] != '0')
    ensures NatToString(DigitsValue(d)) == d
    decreases |d|
  {
    if |d| > 1 {
      var front := d[..|d| - 1];
      var last := d[|d| - 1];
      CanonicalDigits(front);
      PositiveOfLeadingNonZero(front);
      var v := DigitsValue(d);
      assert v == 10 * DigitsValue(front) + DigitValue(last);
      assert v / 10 == DigitsValue(front) && v % 10 == DigitValue(last);
      assert d == front + [last];
    }
  }

  /** Digits that do not start with a zero spell a positive number. */
  lemma {:induction false} PositiveOfLeadingNonZero(d: string)
    requires AllDigits(d) && d != "" && d[0] != '0'
    ensures DigitsValue(d) > 0
    decreases |d|
  {
    if |d| > 1 {
      PositiveOfLeadingNonZero(d[..|d| - 1]);
    }
  }

  /** `n.toString()` for any integer: a minus sign in front of the magnitude when negative. */
  function IntToString(n: int): (r: string)
    ensures n >= 0 ==> r == NatToString(n)
    ensures n < 0 ==> r == "-" + NatToString(-n)
  {
    if n < 0 then "-" + NatToString(-n) else NatToString(n)
  }

  /**
   * `s.includes(sub)`, decided window by window from the left.
   */
  predicate Contains(s: string, sub: string)
    decreases |s|
  {
    |sub| <= |s| && (s[..|sub|] == sub || (0 < |s| && Contains(s[1..], sub)))
  }

  /** `sub` occurs in `s` starting at position `i`. */
  predicate WindowAt(s: string, sub: string, i: int) {
    0 <= i <= |s| - |sub| && s[i..i + |sub|] == sub
  }

  /** `Contains` holds exactly when some window of `s` spells `sub`. */
  lemma {:induction false} ContainsIffWindow(s: string, sub: string)
    ensures Contains(s, sub) <==> exists i :: WindowAt(s, sub, i)
    decreases |s|
  {
    if |sub| <= |s| && s[..|sub|] != sub && 0 < |s| {
      ContainsIffWindow(s[1..], sub);
      if exists i :: WindowAt(s, sub, i) {
        var i :| WindowAt(s, sub, i);
        assert i != 0;
        assert WindowAt(s[1..], sub, i - 1);
      }
      if Contains(s[1..], sub) {
        var i :| WindowAt(s[1..], sub, i);
        assert WindowAt(s, sub, i + 1);
      }
    } else if |sub| <= |s| && s[..|sub|] == sub {
      assert WindowAt(s, sub, 0);
    }
  }

  /** Every character of a contained string occurs in the containing one. */
  lemma {:induction false} ContainsCharacters(s: string, sub: string, c: char)
    requires Contains(s, sub) && c in sub
    ensures c in s
  {
    ContainsIffWindow(s, sub);
    var i :| WindowAt(s, sub, i);
    var j :| 0 <= j < |sub| && sub[j] == c;
    assert s[i..i + |sub|][j] == c;
  }

  /** A string that starts with `sub` contains it. */
  lemma ContainsPrefix(s: string, sub: string, rest: string)
    requires s == sub + rest
    ensures Contains(s, sub)
  {
    assert s[..|sub|] == sub;
  }

  /** Containment survives putting more text in front. */
  lemma {:induction false} ContainsAfterPrefix(front: string, s: string, sub: string)
    requires Contains(s, sub)
    ensures Contains(front + s, sub)
  {
    ContainsIffWindow(s, sub);
    var i :| WindowAt(s, sub, i);
    assert (front + s)[|front| + i..|front| + i + |sub|] == s[i..i + |sub|];
    assert WindowAt(front + s, sub, |front| + i);
    ContainsIffWindow(front + s, sub);
  }

  /**
   * The characters JavaScript's `trim` removes: WhiteSpace (including every
   * space separator) and LineTerminator of the ECMAScript grammar.
   */
  predicate IsSpace(c: char) {
    || c == '\t' || c == '\n' || c == '\U{000B}' || c == '\U{000C}' || c == '\r'
    || c == ' ' || c == '\U{00A0}' || c == '\U{1680}'
    || ('\U{2000}' <= c <= '\U{200A}')
    || c == '\U{2028}' || c == '\U{2029}' || c == '\U{202F}' || c == '\U{205F}'
    || c == '\U{3000}' || c == '\U{FEFF}'
  }

  function TrimStart(s: string): (r: string)
    ensures |r| <= |s| && r == s[|s| - |r|..]
    ensures forall i | 0 <= i < |s| - |r| :: IsSpace(s[i])
    ensures |r| > 0 ==> !IsSpace(r[0])
  {
    if 0 < |s| && IsSpace(s[0]) then TrimStart(s[1..]) else s
  }

  function TrimEnd(s: string): (r: string)
    ensures |r| <= |s| && r == s[..|r|]
    ensures forall i | |r| <= i < |s| :: IsSpace(s[i])
    ensures |r| > 0 ==> !IsSpace(r[|r| - 1])
  {
    if 0 < |s| && IsSpace(s[|s| - 1]) then TrimEnd(s[..|s| - 1]) else s
  }

  /** `s.trim()`. */
  function Trim(s: string): string {
    TrimEnd(TrimStart(s))
  }

  /** `s.trim()` is empty exactly when `s` is nothing but white space. */
  lemma TrimEmptyIff(s: string)
    ensures Trim(s) == "" <==> forall i | 0 <= i < |s| :: IsSpace(s[i])
  {
    var t := TrimStart(s);
    if |t| > 0 {
      assert t[0] == s[|s| - |t|];
    }
  }

  /** The trimmed text neither starts nor ends with white space. */
  lemma TrimEnds(s: string)
    ensures var r := Trim(s); |r| == 0 || (!IsSpace(r[0]) && !IsSpace(r[|r| - 1]))
  {
    var t := TrimStart(s);
    var r := TrimEnd(t);
    if |r| > 0 {
      assert r[0] == t[0];
    }
  }

  /** Strict order of strings by character code, a proper prefix first. */
  predicate LexLess(a: string, b: string) {
    if |a| == 0 then 0 < |b|
    else 0 < |b| && (a[0] < b[0] || (a[0] == b[0] && LexLess(a[1..], b[1..])))
  }

  lemma {:induction false} LexLessIrreflexive(a: string)
    ensures !LexLess(a, a)
  {
    if |a| > 0 {
      LexLessIrreflexive(a[1..]);
    }
  }

  lemma {:induction false} LexLessTransitive(a: string, b: string, c: string)
    requires LexLess(a, b) && LexLess(b, c)
    ensures LexLess(a, c)
  {
    if |a| > 0 && a[0] == b[0] && b[0] == c[0] {
      LexLessTransitive(a[1..], b[1..], c[1..]);
    }
  }

  lemma {:induction false} LexLessTotal(a: string, b: string)
    ensures a == b || LexLess(a, b) || LexLess(b, a)
  {
    if |a| > 0 && |b| > 0 && a[0] == b[0] {
      LexLessTotal(a[1..], b[1..]);
      if a[1..] == b[1..] {
        assert a == [a[0]] + a[1..] && b == [b[0]] + b[1..];
      }
    }
  }
}
