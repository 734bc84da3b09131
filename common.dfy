/** Option and Result wrappers shared by every module. */
module Wrappers {

  datatype Option<+T> = None | Some(value: T) {
    /** The value, or `default` when there is none. */
    function GetOr(default: T): T {
      if Some? then value else default
    }
  }

  datatype Result<+T, +E> = Ok(value: T) | Err(error: E)
}

/**
 * Text helpers: decimal rendering and the integer parsers of the Java
 * runtime (`Integer.parseInt`, `Long.parseLong`) and of Python (`str(int)`),
 * plus the few string predicates the source uses.
 */
module Text {
  import opened Wrappers

  const INT_MIN: int := -0x8000_0000
  const INT_MAX: int := 0x7FFF_FFFF
  const LONG_MIN: int := -0x8000_0000_0000_0000
  const LONG_MAX: int := 0x7FFF_FFFF_FFFF_FFFF

  /** An ASCII decimal digit, the only digits decimal rendering writes and `Double.parseDouble` reads. */
  predicate IsDigit(c: char) {
    '0' <= c <= '9'
  }

  predicate AllDigits(s: string) {
    forall i :: 0 <= i < |s| ==> IsDigit(s[i])
  }

  /**
   * The zero of the run of ten decimal digits (Unicode general category Nd,
   * Basic Multilingual Plane) that the code point x belongs to, or -1.
   */
  function DigitZero(x: int): (z: int)
    ensures z == -1 || (0x30 <= z <= x < z + 10)
    ensures 0x30 <= x <= 0x39 ==> z == 0x30
  {
    if 0x0030 <= x < 0x003A then 0x0030
    else if 0x0660 <= x < 0x066A then 0x0660
    else if 0x06F0 <= x < 0x06FA then 0x06F0
    else if 0x07C0 <= x < 0x07CA then 0x07C0
    else if 0x0966 <= x < 0x0970 then 0x0966
    else if 0x09E6 <= x < 0x09F0 then 0x09E6
    else if 0x0A66 <= x < 0x0A70 then 0x0A66
    else if 0x0AE6 <= x < 0x0AF0 then 0x0AE6
    else if 0x0B66 <= x < 0x0B70 then 0x0B66
    else if 0x0BE6 <= x < 0x0BF0 then 0x0BE6
    else if 0x0C66 <= x < 0x0C70 then 0x0C66
    else if 0x0CE6 <= x < 0x0CF0 then 0x0CE6
    else if 0x0D66 <= x < 0x0D70 then 0x0D66
    else if 0x0DE6 <= x < 0x0DF0 then 0x0DE6
    else if 0x0E50 <= x < 0x0E5A then 0x0E50
    else if 0x0ED0 <= x < 0x0EDA then 0x0ED0
    else if 0x0F20 <= x < 0x0F2A then 0x0F20
    else if 0x1040 <= x < 0x104A then 0x1040
    else if 0x1090 <= x < 0x109A then 0x1090
    else if 0x17E0 <= x < 0x17EA then 0x17E0
    else if 0x1810 <= x < 0x181A then 0x1810
    else if 0x1946 <= x < 0x1950 then 0x1946
    else if 0x19D0 <= x < 0x19DA then 0x19D0
    else if 0x1A80 <= x < 0x1A8A then 0x1A80
    else if 0x1A90 <= x < 0x1A9A then 0x1A90
    else if 0x1B50 <= x < 0x1B5A then 0x1B50
    else if 0x1BB0 <= x < 0x1BBA then 0x1BB0
    else if 0x1C40 <= x < 0x1C4A then 0x1C40
    else if 0x1C50 <= x < 0x1C5A then 0x1C50
    else if 0xA620 <= x < 0xA62A then 0xA620
    else if 0xA8D0 <= x < 0xA8DA then 0xA8D0
    else if 0xA900 <= x < 0xA90A then 0xA900
    else if 0xA9D0 <= x < 0xA9DA then 0xA9D0
    else if 0xA9F0 <= x < 0xA9FA then 0xA9F0
    else if 0xAA50 <= x < 0xAA5A then 0xAA50
    else if 0xABF0 <= x < 0xABFA then 0xABF0
    else if 0xFF10 <= x < 0xFF1A then 0xFF10
    else -1
  }

  /** `Character.digit(c, 10) != -1`: a decimal digit of a BMP script. */
  predicate JavaDigit(c: char) {
    DigitZero(c as int) != -1
  }

  /** Every character a Java digit, checked from the last one back, as DigitsValue reads them. */
  predicate AllJavaDigits(s: string) {
    s == [] || (AllJavaDigits(s[..|s| - 1]) && JavaDigit(s[|s| - 1]))
  }

  lemma {:induction false} JavaDigitsAt(s: string)
    requires AllJavaDigits(s)
    ensures forall i :: 0 <= i < |s| ==> JavaDigit(s[i])
  {
    if s != [] {
      var front := s[..|s| - 1];
      JavaDigitsAt(front);
      assert forall i :: 0 <= i < |front| ==> s[i] == front[i];
    }
  }

  /** `Character.digit(c, 10)`: the distance from the zero of c's run. */
  function DigitValue(c: char): (d: nat)
    requires JavaDigit(c)
    ensures d < 10
    ensures IsDigit(c) ==> d == c as int - '0' as int
  {
    c as int - DigitZero(c as int)
  }

  /** Every ASCII digit is a Java digit, worth its distance from '0'. */
  lemma AsciiDigit(c: char)
    requires IsDigit(c)
    ensures JavaDigit(c) && DigitValue(c) == c as int - '0' as int
  {
  }

  lemma {:induction false} AsciiDigits(s: string)
    requires AllDigits(s)
    ensures AllJavaDigits(s)
  {
    if s != [] {
      var front := s[..|s| - 1];
      assert AllDigits(front) by {
        assert forall i :: 0 <= i < |front| ==> front[i] == s[i];
      }
      AsciiDigits(front);
      AsciiDigit(s[|s| - 1]);
    }
  }

  function DigitChar(d: nat): (c: char)
    requires d < 10
    ensures IsDigit(c) && JavaDigit(c) && DigitValue(c) == d
  {
    ('0' as int + d) as char
  }

  /** The value of a string of decimal digits, most significant first. */
  function DigitsValue(s: string): nat
    requires AllJavaDigits(s)
  {
    if s == [] then 0 else DigitsValue(s[..|s| - 1]) * 10 + DigitValue(s[|s| - 1])
  }

  /** Shortest decimal rendering of a natural number (no sign, no leading zeros). */
  function NatToString(n: nat): (s: string)
    ensures |s| > 0 && AllDigits(s)
    ensures |s| > 1 ==> s[0] != '0'
  {
    if n < 10 then [DigitChar(n)] else NatToString(n / 10) + [DigitChar(n % 10)]
  }

  /** Decimal rendering of an integer, as Java's `toString` and Python's `str` give it. */
  function IntToString(i: int): (s: string)
    ensures |s| > 0 && (s[0] == '-' <==> i < 0)
  {
    if i < 0 then "-" + NatToString(-i) else NatToString(i)
  }

  lemma {:induction false} NatToStringValue(n: nat)
    ensures AllJavaDigits(NatToString(n)) && DigitsValue(NatToString(n)) == n
  {
    AsciiDigits(NatToString(n));
    if n >= 10 {
      var s := NatToString(n);
      NatToStringValue(n / 10);
      assert s[..|s| - 1] == NatToString(n / 10);
    }
  }

  /**
   * The parse shared by `Integer.parseInt` and `Long.parseLong`: an optional
   * '+' or '-', then at least one decimal digit of a BMP script (what
   * `Character.digit` accepts), and the value must lie in [lo, hi];
   * anything else is a NumberFormatException (None).
   */
  function ParseJavaInteger(s: string, lo: int, hi: int): (r: Option<int>)
    ensures r.Some? ==> lo <= r.value <= hi
    ensures r.Some? ==> |s| > 0
  {
    if |s| == 0 then None
    else
      var body := if s[0] == '-' || s[0] == '+' then s[1..] else s;
      if |body| == 0 || !AllJavaDigits(body) then None
      else
        var v: int := if s[0] == '-' then -(DigitsValue(body) as int) else DigitsValue(body);
        if lo <= v <= hi then Some(v) else None
  }

  /** `Integer.parseInt`. */
  function ParseInt(s: string): Option<int> {
    ParseJavaInteger(s, INT_MIN, INT_MAX)
  }

  /** `Long.parseLong`; a null argument is a NumberFormatException too. */
  function ParseLong(s: Option<string>): Option<int> {
    if s.None? then None else ParseJavaInteger(s.value, LONG_MIN, LONG_MAX)
  }

  /** Rendering then parsing gives back every integer of the parser's range. */
  lemma ParseRendered(i: int, lo: int, hi: int)
    requires lo <= i <= hi
    ensures ParseJavaInteger(IntToString(i), lo, hi) == Some(i)
  {
    if i < 0 {
      ParseRenderedNegative(-i, lo, hi);
    } else {
      ParseRenderedNatural(i, lo, hi);
    }
  }

  lemma ParseRenderedNatural(n: nat, lo: int, hi: int)
    requires lo <= n <= hi
    ensures ParseJavaInteger(NatToString(n), lo, hi) == Some(n)
  {
    var s := NatToString(n);
    NatToStringValue(n);
    assert !(s[0] == '-' || s[0] == '+');
  }

  lemma ParseRenderedNegative(n: nat, lo: int, hi: int)
    requires n > 0 && lo <= -(n as int) <= hi
    ensures ParseJavaInteger("-" + NatToString(n), lo, hi) == Some(-(n as int))
  {
    var digits := NatToString(n);
    NatToStringValue(n);
    var s := "-" + digits;
    assert s[0] == '-';
    assert s[1..] == digits;
    assert AllJavaDigits(s[1..]);
  }

  /** The integer parsers read digits of other scripts: Arabic-Indic "١٢" is 12, full-width "-７" is -7. */
  lemma ScriptDigitsParse()
    ensures ParseInt("\U{0661}\U{0662}") == Some(12)
    ensures ParseLong(Some("-\U{FF17}")) == Some(-7)
  {
    var s := "\U{0661}\U{0662}";
    var one := "\U{0661}";
    assert s[..|s| - 1] == one && one[..0] == "";
    assert DigitValue(one[0]) == 1 && DigitValue(s[1]) == 2;
    assert AllJavaDigits(one) && DigitsValue(one) == 1;
    assert AllJavaDigits(s) && DigitsValue(s) == 12;
    var w := "-\U{FF17}";
    var seven := "\U{FF17}";
    assert w[1..] == seven && seven[..0] == "";
    assert AllJavaDigits(seven) && DigitsValue(seven) == 7;
  }

  /** `Double.parseDouble` reads ASCII digits only: "١٢" is a NumberFormatException to it. */
  lemma ScriptDigitsNotDouble()
    ensures ParseDouble("\U{0661}\U{0662}") == None
  {
    var s := "\U{0661}\U{0662}";
    assert !IsDigit(s[0]);
  }

  /** A successful parse saw only an optional sign and decimal digits. */
  lemma ParsedShape(s: string, lo: int, hi: int)
    requires ParseJavaInteger(s, lo, hi).Some?
    ensures forall i :: 0 < i < |s| ==> JavaDigit(s[i])
    ensures JavaDigit(s[0]) || ((s[0] == '-' || s[0] == '+') && |s| > 1)
  {
    var body := if s[0] == '-' || s[0] == '+' then s[1..] else s;
    JavaDigitsAt(body);
    if s[0] == '-' || s[0] == '+' {
      assert forall i :: 0 < i < |s| ==> s[i] == body[i - 1];
    }
  }

  predicate StartsWith(s: string, prefix: string) {
    prefix <= s
  }

  /** JavaScript's `includes` on strings: `sub` occurs somewhere in `s`. */
  predicate Contains(s: string, sub: string) {
    sub <= s || (|s| > 0 && Contains(s[1..], sub))
  }

  /** Elements joined with a separator, as `List.toString` and `", ".join` do. */
  function Join(parts: seq<string>, sep: string): string {
    if parts == [] then ""
    else if |parts| == 1 then parts[0]
    else parts[0] + sep + Join(parts[1..], sep)
  }

  /** String.trim: drop the characters up to ' ' at both ends; TrimSegment shows the rest is kept as it was. */
  function Trim(s: string): (t: string)
    ensures |t| <= |s|
    ensures |t| > 0 ==> t[0] > ' ' && t[|t| - 1] > ' '
  {
    if |s| > 0 && s[0] <= ' ' then Trim(s[1..])
    else if |s| > 0 && s[|s| - 1] <= ' ' then Trim(s[..|s| - 1])
    else s
  }

  /** What Trim keeps is s itself with a blank prefix and a blank suffix taken off. */
  lemma {:induction false} TrimSegment(s: string)
    ensures Segment(s, Trim(s))
  {
    if |s| > 0 && s[0] <= ' ' {
      TrimSegment(s[1..]);
      SegmentFront(s, Trim(s));
    } else if |s| > 0 && s[|s| - 1] <= ' ' {
      TrimSegment(s[..|s| - 1]);
      SegmentBack(s, Trim(s));
    } else {
      SegmentWhole(s);
    }
  }

  /** Every character is at or below ' ', which String.trim drops. */
  predicate Blank(s: string) {
    forall k :: 0 <= k < |s| ==> s[k] <= ' '
  }

  /** t is s with a blank prefix and a blank suffix removed, and nothing else changed. */
  ghost predicate Segment(s: string, t: string) {
    exists pre, post :: s == pre + t + post && Blank(pre) && Blank(post)
  }

  lemma SegmentWhole(s: string)
    ensures Segment(s, s)
  {
    var none: string := [];
    assert s == none + s + none && Blank(none);
  }

  /** Dropping one more blank character in front keeps t a segment. */
  lemma SegmentFront(s: string, t: string)
    requires |s| > 0 && s[0] <= ' ' && Segment(s[1..], t)
    ensures Segment(s, t)
  {
    var pre, post :| s[1..] == pre + t + post && Blank(pre) && Blank(post);
    var pre' := [s[0]] + pre;
    assert Blank(pre') by {
      forall k | 0 <= k < |pre'| ensures pre'[k] <= ' ' {
        if k > 0 { assert pre'[k] == pre[k - 1]; }
      }
    }
    assert s == [s[0]] + s[1..];
    assert s == pre' + t + post;
  }

  /** Dropping one more blank character at the end keeps t a segment. */
  lemma SegmentBack(s: string, t: string)
    requires |s| > 0 && s[|s| - 1] <= ' ' && Segment(s[..|s| - 1], t)
    ensures Segment(s, t)
  {
    var pre, post :| s[..|s| - 1] == pre + t + post && Blank(pre) && Blank(post);
    assert s == s[..|s| - 1] + [s[|s| - 1]];
    var post' := post + [s[|s| - 1]];
    assert Blank(post') by {
      forall k | 0 <= k < |post'| ensures post'[k] <= ' ' {
        if k < |post| { assert post'[k] == post[k]; }
      }
    }
    assert s == pre + t + post';
  }

  /** The position of the first character of `s` in `cs`, or |s|. */
  function FindAny(s: string, cs: set<char>): (i: nat)
    ensures i <= |s| && (i < |s| ==> s[i] in cs)
    ensures forall j :: 0 <= j < i ==> s[j] !in cs
  {
    if s == [] then 0 else if s[0] in cs then 0 else 1 + FindAny(s[1..], cs)
  }

  function Pow10(e: nat): (p: nat)
    ensures p > 0
  {
    if e == 0 then 1 else 10 * Pow10(e - 1)
  }

  /** 10 raised to an integer power, as a real. */
  function Scale(e: int): (r: real)
    ensures r > 0.0
  {
    if e >= 0 then Pow10(e) as real else 1.0 / (Pow10(-e) as real)
  }

  /** The exponent of a decimal: an optional sign, then at least one ASCII digit. */
  function ParseExponent(s: string): (r: Option<int>)
    ensures r.Some? <==> var digits := if |s| > 0 && (s[0] == '-' || s[0] == '+') then s[1..] else s;
      |digits| > 0 && AllDigits(digits)
    ensures r.Some? && r.value < 0 ==> s[0] == '-'
  {
    var digits := if |s| > 0 && (s[0] == '-' || s[0] == '+') then s[1..] else s;
    if |digits| == 0 || !AllDigits(digits) then None
    else
      AsciiDigits(digits);
      Some(if s[0] == '-' then -(DigitsValue(digits) as int) else DigitsValue(digits))
  }

  /** An unsigned decimal: digits, an optional '.' and more digits (not both empty), an optional exponent. */
  function ParseUnsignedDecimal(u: string): Option<real> {
    var e := FindAny(u, {'e', 'E'});
    var mantissa := u[..e];
    var exponent: Option<int> := if e == |u| then Some(0) else ParseExponent(u[e + 1..]);
    var dot := FindAny(mantissa, {'.'});
    var whole := mantissa[..dot];
    var fraction := if dot == |mantissa| then "" else mantissa[dot + 1..];
    if exponent.None? || |whole| + |fraction| == 0 || !AllDigits(whole) || !AllDigits(fraction) then None
    else
      AsciiDigits(whole);
      AsciiDigits(fraction);
      var m := DigitsValue(whole) as real + (DigitsValue(fraction) as real) / (Pow10(|fraction|) as real);
      Some(m * Scale(exponent.value))
  }

  /**
   * `Double.parseDouble` on decimal notation: the trimmed string, an
   * optional sign, an unsigned decimal, an optional f/F/d/D suffix.
   * "NaN", "Infinity" and hexadecimal notation are not modelled and read
   * as failures; the value is the exact real, without IEEE rounding.
   */
  function ParseDouble(s: string): Option<real> {
    var t := Trim(s);
    var body := if |t| > 0 && t[|t| - 1] in {'f', 'F', 'd', 'D'} then t[..|t| - 1] else t;
    if |body| == 0 then None
    else
      var negative := body[0] == '-';
      var unsigned := if body[0] == '-' || body[0] == '+' then body[1..] else body;
      var v := ParseUnsignedDecimal(unsigned);
      if v.None? then None else Some(if negative then -v.value else v.value)
  }

  /** Every rendered natural number reads back as itself, the default "0" included. */
  lemma ParseDoubleRendered(n: nat)
    ensures ParseDouble(NatToString(n)) == Some(n as real)
  {
    var s := NatToString(n);
    assert Trim(s) == s;
    assert !(s[|s| - 1] in {'f', 'F', 'd', 'D'});
    assert s[0] != '-' && s[0] != '+';
    UnsignedDigits(s);
    NatToStringValue(n);
  }

  lemma UnsignedDigits(s: string)
    requires AllDigits(s) && |s| > 0
    ensures AllJavaDigits(s) && ParseUnsignedDecimal(s) == Some(DigitsValue(s) as real)
  {
    AsciiDigits(s);
    NoLetters(s, {'e', 'E'});
    assert s[..|s|] == s;
    NoLetters(s, {'.'});
    var fraction: string := "";
    assert AllDigits(fraction);
    assert DigitsValue(fraction) == 0 && Pow10(|fraction|) == 1;
    assert Scale(0) == 1.0;
  }

  lemma {:induction false} NoLetters(s: string, cs: set<char>)
    requires AllDigits(s)
    requires forall c :: c in cs ==> !IsDigit(c)
    ensures FindAny(s, cs) == |s|
  {
    if s != [] {
      assert AllDigits(s[1..]) by {
        forall i | 0 <= i < |s[1..]| ensures IsDigit(s[1..][i]) { assert s[1..][i] == s[i + 1]; }
      }
      NoLetters(s[1..], cs);
    }
  }
}
