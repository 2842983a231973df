/**
 * The amount-field helpers of utils.ts: the digit-grouping formatter
 * `formatInputNumber`, its inverse `parseInputNumber` (built on the prefix
 * reading of `parseFloat`), and the age buckets of `getRelativeTime`.
 */
module Utils {
  import opened Wrappers
  import opened Strings
  import opened Seqs

  function NotDot(c: char): bool {
    c != '.'
  }

  /** `val.replace(/\D/g, '')`: the ASCII digits of the text, in order. */
  function KeepDigits(s: string): (r: string)
    ensures AllDigits(r)
    ensures |r| <= |s|
  {
    var r := Filter(s, IsDigit);
    FilterMembers(s, IsDigit);
    assert forall k | 0 <= k < |r| :: r[k] in r;
    r
  }

  /** `val.replace(/\./g, '')`. */
  function StripDots(s: string): (r: string)
    ensures '.' !in r
  {
    FilterMembers(s, NotDot);
    Filter(s, NotDot)
  }

  /**
   * `nums.replace(/\B(?=(\d{3})+(?!\d))/g, ".")` on a digit string: a dot
   * between two digits wherever a positive multiple of three digits follows.
   */
  function Group(d: string): string
    decreases |d|
  {
    if |d| <= 3 then d else Group(d[..|d| - 3]) + "." + d[|d| - 3..]
  }

  /**
   * The shape of a grouped amount: digits and dots, a dot exactly at every
   * fourth position counted from the end, so that the first group holds one
   * to three digits, every later group exactly three, and the text neither
   * starts nor ends with a dot.
   */
  predicate WellGrouped(g: string) {
    && |g| % 4 != 0
    && forall k | 0 <= k < |g| :: if (|g| - k) % 4 == 0 then g[k] == '.' else IsDigit(g[k])
  }

  /** `formatInputNumber`: empty stays empty, anything else is reduced to its digits and grouped. */
  function FormatInputNumber(s: string): string {
    if s == "" then "" else Group(KeepDigits(s))
  }

  /** The longest run of digits at the front. */
  function LeadingDigits(s: string): (r: string)
    ensures |r| <= |s| && AllDigits(r) && r == s[..|r|]
    ensures |r| < |s| ==> !IsDigit(s[|r|])
  {
    if |s| == 0 || !IsDigit(s[0]) then "" else [s[0]] + LeadingDigits(s[1..])
  }

  /**
   * `parseFloat` on integer text once the leading white space is gone: one
   * sign is read, then the longest digit run; no digit there gives NaN
   * (`None`).
   */
  function ReadSigned(t: string): (r: Option<int>)
    ensures (forall k | 0 <= k < |t| :: !IsDigit(t[k])) ==> r.None?
  {
    var negative := |t| > 0 && t[0] == '-';
    var body := if |t| > 0 && (t[0] == '-' || t[0] == '+') then t[1..] else t;
    var digits := LeadingDigits(body);
    var magnitude: int := DigitsValue(digits);
    if digits == "" then None
    else if negative then Some(-magnitude)
    else Some(magnitude)
  }

  /** `parseFloat` on integer text: leading white space is skipped, then the sign and digits are read. */
  function ParseFloat(s: string): (r: Option<int>)
    ensures (forall k | 0 <= k < |s| :: !IsDigit(s[k])) ==> r.None?
  {
    var t := TrimStart(s);
    assert forall k | 0 <= k < |t| :: t[k] == s[|s| - |t| + k];
    ReadSigned(t)
  }

  /** A non-empty digit string reads as the number it spells. */
  lemma ParseFloatOfDigits(s: string)
    requires AllDigits(s) && s != ""
    ensures ParseFloat(s) == Some(DigitsValue(s))
  {
    assert s + "" == s && "" + s == s;
    ReadUnsigned(s, "");
    ParseFloatAfterSpace("", s);
  }

  /** Every character of `w` is white space. */
  predicate AllSpace(w: string) {
    forall i | 0 <= i < |w| :: IsSpace(w[i])
  }

  /** A sign `parseFloat` accepts in front of the digits: none, plus or minus. */
  predicate IsSign(sign: string) {
    sign == "" || sign == "+" || sign == "-"
  }

  /** The value of a digit run read after a sign. */
  function Signed(sign: string, d: string): int
    requires AllDigits(d)
  {
    var v: int := DigitsValue(d);
    if sign == "-" then -v else v
  }

  /** White space in front of text that does not start with white space is skipped, and nothing more. */
  lemma {:induction false} TrimStartSkipsSpace(w: string, t: string)
    requires AllSpace(w)
    requires t == "" || !IsSpace(t[0])
    ensures TrimStart(w + t) == t
    decreases |w|
  {
    if |w| > 0 {
      assert (w + t)[1..] == w[1..] + t;
      TrimStartSkipsSpace(w[1..], t);
    } else {
      assert w + t == t;
    }
  }

  /** The digit run at the front stops at the first character that is not a digit. */
  lemma {:induction false} LeadingDigitsStop(d: string, rest: string)
    requires AllDigits(d)
    requires rest == "" || !IsDigit(rest[0])
    ensures LeadingDigits(d + rest) == d
    decreases |d|
  {
    if |d| > 0 {
      assert (d + rest)[1..] == d[1..] + rest;
      LeadingDigitsStop(d[1..], rest);
      assert d == [d[0]] + d[1..];
    } else {
      assert d + rest == rest;
    }
  }

  /**
   * `parseFloat` reads a numeric prefix: after any white space and one sign,
   * a non-empty digit run gives its value, negated after a minus, whatever
   * text follows the run.
   */
  lemma ParseFloatReadsPrefix(w: string, sign: string, d: string, rest: string)
    requires AllSpace(w) && IsSign(sign)
    requires AllDigits(d) && d != ""
    requires rest == "" || !IsDigit(rest[0])
    ensures ParseFloat(w + sign + d + rest) == Some(Signed(sign, d))
  {
    var t := sign + (d + rest);
    assert w + sign + d + rest == w + t;
    if sign == "" {
      assert t == d + rest;
      ReadUnsigned(d, rest);
    } else {
      assert t == [sign[0]] + (d + rest);
      ReadAfterSign(sign[0], d, rest);
    }
    ParseFloatAfterSpace(w, t);
  }

  /** White space in front of text that does not start with white space does not change the reading. */
  lemma ParseFloatAfterSpace(w: string, t: string)
    requires AllSpace(w)
    requires t == "" || !IsSpace(t[0])
    ensures ParseFloat(w + t) == ReadSigned(t)
  {
    TrimStartSkipsSpace(w, t);
  }

  lemma ReadUnsigned(d: string, rest: string)
    requires AllDigits(d) && d != ""
    requires rest == "" || !IsDigit(rest[0])
    ensures ReadSigned(d + rest) == Some(DigitsValue(d))
    ensures !IsSpace((d + rest)[0])
  {
    assert (d + rest)[0] == d[0];
    LeadingDigitsStop(d, rest);
  }

  lemma ReadAfterSign(c: char, d: string, rest: string)
    requires c == '-' || c == '+'
    requires AllDigits(d) && d != ""
    requires rest == "" || !IsDigit(rest[0])
    ensures ReadSigned([c] + (d + rest)) == Some(Signed([c], d))
  {
    assert ([c] + (d + rest))[1..] == d + rest;
    LeadingDigitsStop(d, rest);
  }

  /**
   * Without a digit right after the white space and the sign, `parseFloat`
   * gives NaN, even when digits come later ("abc12"). With no sign, the text
   * after the white space must not start with white space or a sign either,
   * since those would be read instead.
   */
  lemma ParseFloatNoPrefix(w: string, sign: string, rest: string)
    requires AllSpace(w) && IsSign(sign)
    requires rest == "" || !IsDigit(rest[0])
    requires sign == "" ==> rest == "" || (!IsSpace(rest[0]) && rest[0] != '+' && rest[0] != '-')
    ensures ParseFloat(w + sign + rest).None?
  {
    assert w + sign + rest == w + (sign + rest);
    ReadWithoutDigit(sign, rest);
    TrimStartSkipsSpace(w, sign + rest);
  }

  lemma ReadWithoutDigit(sign: string, rest: string)
    requires IsSign(sign)
    requires rest == "" || !IsDigit(rest[0])
    requires sign == "" ==> rest == "" || (!IsSpace(rest[0]) && rest[0] != '+' && rest[0] != '-')
    ensures ReadSigned(sign + rest).None?
    ensures sign + rest == "" || !IsSpace((sign + rest)[0])
  {
    var t := sign + rest;
    LeadingDigitsStop("", rest);
    assert "" + rest == rest;
    if sign == "" {
      assert t == rest;
    } else {
      assert t[0] == sign[0] && t[1..] == rest;
    }
  }

  /** The field reads the numeric prefix of its dot-free text. */
  lemma ParseInputNumberReadsPrefix(s: string, w: string, sign: string, d: string, rest: string)
    requires AllSpace(w) && IsSign(sign)
    requires AllDigits(d) && d != ""
    requires rest == "" || !IsDigit(rest[0])
    requires StripDots(s) == w + sign + d + rest
    ensures ParseInputNumber(s) == Signed(sign, d)
  {
    ParseFloatReadsPrefix(w, sign, d, rest);
  }

  /** Dot-free text without a numeric prefix, "abc12" or "+" say, reads as 0. */
  lemma ParseInputNumberNoPrefix(s: string, w: string, sign: string, rest: string)
    requires AllSpace(w) && IsSign(sign)
    requires rest == "" || !IsDigit(rest[0])
    requires sign == "" ==> rest == "" || (!IsSpace(rest[0]) && rest[0] != '+' && rest[0] != '-')
    requires StripDots(s) == w + sign + rest
    ensures ParseInputNumber(s) == 0
  {
    ParseFloatNoPrefix(w, sign, rest);
  }

  /** Text without dots passes the dot removal unchanged. */
  lemma StripDotFree(s: string)
    requires '.' !in s
    ensures StripDots(s) == s
  {
    FilterAll(s, NotDot);
  }

  /** Digits after a letter are not read: "abc12" reads as 0. */
  lemma LetterBeforeDigitsReadsZero()
    ensures ParseInputNumber("abc12") == 0
  {
    StripDotFree("abc12");
    assert "abc12" == "" + "" + "abc12";
    ParseInputNumberNoPrefix("abc12", "", "", "abc12");
  }

  /** Space and a minus are read, a trailing letter is dropped: " -5x" reads as -5. */
  lemma SignedPrefixReadsValue()
    ensures ParseInputNumber(" -5x") == -5
  {
    StripDotFree(" -5x");
    assert " -5x" == " " + "-" + "5" + "x";
    assert DigitsValue("5") == 5;
    ParseInputNumberReadsPrefix(" -5x", " ", "-", "5", "x");
  }

  /** A lone sign reads as 0. */
  lemma LoneSignReadsZero()
    ensures ParseInputNumber("+") == 0
  {
    StripDotFree("+");
    assert "+" == "" + "+" + "";
    ParseInputNumberNoPrefix("+", "", "+", "");
  }

  /** `parseFloat(val.replace(/\./g, '')) || 0`: NaN (and zero) read as zero. */
  function ParseInputNumber(s: string): (r: int)
    ensures (forall k | 0 <= k < |s| :: !IsDigit(s[k])) ==> r == 0
  {
    var plain := StripDots(s);
    FilterMembers(s, NotDot);
    assert forall k | 0 <= k < |plain| :: plain[k] in s;
    match ParseFloat(plain)
    case None => 0
    case Some(v) => v
  }

  /** Grouping a non-empty digit string gives a well-grouped text. */
  lemma {:induction false} GroupWellGrouped(d: string)
    requires AllDigits(d) && d != ""
    ensures WellGrouped(Group(d))
    decreases |d|
  {
    if |d| > 3 {
      var a := Group(d[..|d| - 3]);
      var b := d[|d| - 3..];
      GroupWellGrouped(d[..|d| - 3]);
      WellGroupedAppend(a, b);
    }
  }

  /** One more group of three digits after a dot keeps the shape. */
  lemma WellGroupedAppend(a: string, b: string)
    requires WellGrouped(a) && AllDigits(b) && |b| == 3
    ensures WellGrouped(a + "." + b)
  {
    var g := a + "." + b;
    ModFour(|a|);
    forall k | 0 <= k < |g|
      ensures if (|g| - k) % 4 == 0 then g[k] == '.' else IsDigit(g[k])
    {
      if k < |a| {
        assert g[k] == a[k];
        ModFour(|a| - k);
      } else if k == |a| {
        assert g[k] == '.' && |g| - k == 4;
      } else {
        assert g[k] == b[k - |a| - 1];
        assert 0 < |g| - k < 4;
      }
    }
  }

  lemma ModFour(x: nat)
    ensures (x + 4) % 4 == x % 4
  {
  }

  /** Digits lose nothing when the dots are removed. */
  lemma StripDigits(x: string)
    requires AllDigits(x)
    ensures StripDots(x) == x
  {
    FilterAll(x, NotDot);
  }

  /** Removing the dots of a grouped digit string gives the digits back. */
  lemma {:induction false} StripGroup(d: string)
    requires AllDigits(d)
    ensures StripDots(Group(d)) == d
    decreases |d|
  {
    if |d| <= 3 {
      StripDigits(d);
    } else {
      var a := d[..|d| - 3];
      var b := d[|d| - 3..];
      var ga := Group(a);
      StripGroup(a);
      assert Group(d) == ga + "." + b;
      StripAroundDot(ga, b);
      assert a + b == d;
    }
  }

  /** Keeping the digits of a grouped digit string gives the digits back. */
  lemma {:induction false} DigitsOfGroup(d: string)
    requires AllDigits(d)
    ensures KeepDigits(Group(d)) == d
    decreases |d|
  {
    if |d| <= 3 {
      FilterAll(d, IsDigit);
    } else {
      var a := d[..|d| - 3];
      var b := d[|d| - 3..];
      var ga := Group(a);
      DigitsOfGroup(a);
      assert Group(d) == ga + "." + b;
      KeepAroundDot(ga, b);
      assert a + b == d;
    }
  }

  /** Keeping the digits of `a + "." + b`, for digits `b`, keeps `b` whole. */
  lemma KeepAroundDot(a: string, b: string)
    requires AllDigits(b)
    ensures KeepDigits(a + "." + b) == KeepDigits(a) + b
  {
    FilterAppend(a + ".", b, IsDigit);
    FilterAppend(a, ".", IsDigit);
    assert Filter(".", IsDigit) == "";
    FilterAll(b, IsDigit);
  }

  /** `formatInputNumber("")` is empty; otherwise the output is empty or well grouped. */
  lemma FormatShape(s: string)
    ensures s == "" ==> FormatInputNumber(s) == ""
    ensures var r := FormatInputNumber(s); r == "" || WellGrouped(r)
    ensures FormatInputNumber(s) == "" <==> KeepDigits(s) == ""
  {
    if s != "" && KeepDigits(s) != "" {
      GroupWellGrouped(KeepDigits(s));
    }
  }

  /** Deleting the dots of the formatted text leaves exactly the digits of the input, in order. */
  lemma FormatKeepsDigits(s: string)
    ensures StripDots(FormatInputNumber(s)) == KeepDigits(s)
  {
    if s != "" {
      StripGroup(KeepDigits(s));
    }
  }

  /** Formatting formatted text changes nothing. */
  lemma FormatIdempotent(s: string)
    ensures FormatInputNumber(FormatInputNumber(s)) == FormatInputNumber(s)
  {
    if s != "" {
      DigitsOfGroup(KeepDigits(s));
    }
  }

  /**
   * Parsing the formatted text gives the number the input's digits spell,
   * and zero when the input has no digit.
   */
  lemma ParseFormatRoundTrip(s: string)
    ensures ParseInputNumber(FormatInputNumber(s)) == DigitsValue(KeepDigits(s))
  {
    FormatKeepsDigits(s);
    if KeepDigits(s) != "" {
      ParseFloatOfDigits(KeepDigits(s));
    }
  }

  /** The amount text of a non-negative integer reads back as that integer. */
  lemma ParseFormatNat(n: nat)
    ensures ParseInputNumber(FormatInputNumber(NatToString(n))) == n
  {
    ParseFormatRoundTrip(NatToString(n));
    FilterAll(NatToString(n), IsDigit);
  }

  /** A well-grouped text longer than one group is a well-grouped text, a dot and three digits. */
  lemma WellGroupedSplit(g: string)
    requires WellGrouped(g) && |g| > 3
    ensures |g| >= 5 && g[|g| - 4] == '.'
    ensures WellGrouped(g[..|g| - 4]) && AllDigits(g[|g| - 3..])
    ensures g == g[..|g| - 4] + "." + g[|g| - 3..]
  {
    var a := g[..|g| - 4];
    var b := g[|g| - 3..];
    assert (|g| - (|g| - 4)) % 4 == 0;
    forall k | 0 <= k < |a|
      ensures if (|a| - k) % 4 == 0 then a[k] == '.' else IsDigit(a[k])
    {
      assert a[k] == g[k];
      assert (|g| - k) % 4 == (|a| - k) % 4;
    }
    forall k | 0 <= k < |b| ensures IsDigit(b[k]) {
      assert b[k] == g[|g| - 3 + k];
      assert 0 < |g| - (|g| - 3 + k) < 4;
    }
  }

  /** A well-grouped text starts with a digit, so its digits are never empty. */
  lemma WellGroupedHasDigits(g: string)
    requires WellGrouped(g)
    ensures |StripDots(g)| >= 1
  {
    assert |g| > 0 && (|g| - 0) % 4 != 0;
    assert StripDots(g) == [g[0]] + StripDots(g[1..]);
  }

  /**
   * A well-grouped text is the grouping of its own digits: grouping is the
   * only way to spell a digit string in this shape.
   */
  lemma {:induction false} WellGroupedIsGroup(g: string)
    requires WellGrouped(g)
    ensures AllDigits(StripDots(g)) && Group(StripDots(g)) == g
    decreases |g|
  {
    if |g| <= 3 {
      assert AllDigits(g);
      StripDigits(g);
    } else {
      WellGroupedSplit(g);
      var a := g[..|g| - 4];
      var b := g[|g| - 3..];
      WellGroupedIsGroup(a);
      WellGroupedHasDigits(a);
      StripAroundDot(a, b);
      var x := StripDots(a);
      assert StripDots(g) == x + b;
      assert AllDigits(x + b);
      GroupAppend(x, b);
    }
  }

  /** Removing the dots of `a + "." + b`, for digits `b`, keeps `b` whole. */
  lemma StripAroundDot(a: string, b: string)
    requires AllDigits(b)
    ensures StripDots(a + "." + b) == StripDots(a) + b
  {
    var left := a + ".";
    FilterAppend(a, ".", NotDot);
    assert StripDots(".") == "";
    assert StripDots(left) == StripDots(a);
    FilterAppend(left, b, NotDot);
    StripDigits(b);
  }

  /** Three more digits at the end make one more group. */
  lemma GroupAppend(x: string, b: string)
    requires |x| >= 1 && |b| == 3
    ensures Group(x + b) == Group(x) + "." + b
  {
    var d := x + b;
    assert d[..|d| - 3] == x;
    assert d[|d| - 3..] == b;
  }

  /** How long ago a date lies, in the buckets `getRelativeTime` names. */
  datatype Age = JustNow | MinutesAgo(minutes: int) | HoursAgo(hours: int) | OnDate

  const MinuteMs: int := 60000
  const HourMs: int := 3600000
  const DayMs: int := 86400000

  /**
   * `getRelativeTime`: floor-minutes and floor-hours of the elapsed time.
   * A date less than a minute old, or in the future, is "just now".
   */
  function RelativeTime(dateMs: int, nowMs: int): (r: Age)
    ensures r.JustNow? <==> nowMs - dateMs < MinuteMs
    ensures r.MinutesAgo? <==> MinuteMs <= nowMs - dateMs < HourMs
    ensures r.HoursAgo? <==> HourMs <= nowMs - dateMs < DayMs
    ensures r.OnDate? <==> DayMs <= nowMs - dateMs
    ensures r.MinutesAgo? ==>
      && 1 <= r.minutes < 60
      && MinuteMs * r.minutes <= nowMs - dateMs < MinuteMs * (r.minutes + 1)
    ensures r.HoursAgo? ==>
      && 1 <= r.hours < 24
      && HourMs * r.hours <= nowMs - dateMs < HourMs * (r.hours + 1)
  {
    var diff := nowMs - dateMs;
    var mins := diff / 60000;
    if mins < 1 then JustNow
    else if mins < 60 then MinutesAgo(mins)
    else
      var hours := mins / 60;
      if hours < 24 then HoursAgo(hours) else OnDate
  }

  /** The label of the first three buckets; the last one is a locale-formatted date. */
  function AgeLabel(a: Age): (r: Option<string>)
    ensures r.None? <==> a.OnDate?
  {
    match a
    case JustNow => Some("Vừa xong")
    case MinutesAgo(m) => Some(IntToString(m) + " phút trước")
    case HoursAgo(h) => Some(IntToString(h) + " giờ trước")
    case OnDate => None
  }
}
