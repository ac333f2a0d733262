/**
 * Text helpers the application gets from JavaScript: decimal rendering of
 * numbers and dates, `String.prototype.trim` and `includes`.
 */
module Text {
  import opened Types

  predicate IsDigit(c: char) {
    '0' <= c <= '9'
  }

  function DigitChar(d: int): (c: char)
    requires 0 <= d < 10
    ensures IsDigit(c)
  {
    (48 + d) as char
  }

  function DigitValue(c: char): (d: int)
    requires IsDigit(c)
    ensures 0 <= d < 10 && DigitChar(d) == c
  {
    c as int - 48
  }

  predicate AllDigits(s: string) {
    forall i :: 0 <= i < |s| ==> IsDigit(s[i])
  }

  function Pow10(n: nat): (r: nat)
    ensures r >= 1
  {
    if n == 0 then 1 else 10 * Pow10(n - 1)
  }

  /** The decimal digits of `n`, most significant first, left-padded with zeros to `width`. */
  function Digits(n: nat, width: nat): (r: string)
    ensures AllDigits(r) && |r| >= 1 && |r| >= width
    decreases n, width
  {
    if n < 10 && width <= 1 then [DigitChar(n)]
    else Digits(n / 10, if width > 0 then width - 1 else 0) + [DigitChar(n % 10)]
  }

  /** The value of a string of decimal digits. */
  function ParseDigits(s: string): nat
    requires AllDigits(s)
  {
    if s == [] then 0 else 10 * ParseDigits(s[..|s| - 1]) + DigitValue(s[|s| - 1])
  }

  lemma {:induction false} DigitsRoundTrip(n: nat, width: nat)
    ensures ParseDigits(Digits(n, width)) == n
    decreases n, width
  {
    var r := Digits(n, width);
    if n < 10 && width <= 1 {
      assert r[..|r| - 1] == [];
    } else {
      var w := if width > 0 then width - 1 else 0;
      DigitsRoundTrip(n / 10, w);
      assert r[..|r| - 1] == Digits(n / 10, w);
    }
  }

  lemma {:induction false} DigitsLength(n: nat, width: nat)
    requires width >= 1 && n < Pow10(width)
    ensures |Digits(n, width)| == width
    decreases width
  {
    if width >= 2 {
      DigitsLength(n / 10, width - 1);
    } else {
      assert Pow10(1) == 10;
    }
  }

  /**
   * The ISO 8601 complete calendar date in extended format, YYYY-MM-DD
   * (ISO 8601:2004 section 4.1.2.2), of a date whose month is 0-based.
   */
  function IsoDate(d: Date): (s: string)
    requires 0 <= d.year <= 9999 && 0 <= d.month < 12 && 1 <= d.day <= 31
    ensures |s| == 10 && s[4] == '-' && s[7] == '-'
  {
    DigitsLength(d.year, 4);
    DigitsLength(d.month + 1, 2);
    DigitsLength(d.day, 2);
    Digits(d.year, 4) + "-" + Digits(d.month + 1, 2) + "-" + Digits(d.day, 2)
  }

  /** Reads a YYYY-MM-DD string back into a date with a 0-based month. */
  function ParseIsoDate(s: string): Option<Date> {
    if |s| == 10 && s[4] == '-' && s[7] == '-'
       && AllDigits(s[..4]) && AllDigits(s[5..7]) && AllDigits(s[8..])
    then Some(Date(ParseDigits(s[..4]), ParseDigits(s[5..7]) - 1, ParseDigits(s[8..])))
    else None
  }

  /** Rendering a date and reading it back gives the same date, so distinct dates render differently. */
  lemma IsoDateRoundTrip(d: Date)
    requires 0 <= d.year <= 9999 && 0 <= d.month < 12 && 1 <= d.day <= 31
    ensures ParseIsoDate(IsoDate(d)) == Some(d)
  {
    var y, m, dd := Digits(d.year, 4), Digits(d.month + 1, 2), Digits(d.day, 2);
    DigitsLength(d.year, 4);
    DigitsLength(d.month + 1, 2);
    DigitsLength(d.day, 2);
    var s := IsoDate(d);
    assert s == y + "-" + m + "-" + dd;
    assert s[..4] == y;
    assert s[5..7] == m;
    assert s[8..] == dd;
    DigitsRoundTrip(d.year, 4);
    DigitsRoundTrip(d.month + 1, 2);
    DigitsRoundTrip(d.day, 2);
  }

  /** A non-negative number of half hours as JavaScript renders it: "3", "0.5", "2.5". */
  function UnsignedText(a: nat): (s: string)
    ensures |s| >= 1
  {
    Digits(a / 2, 1) + (if a % 2 == 1 then ".5" else "")
  }

  /** JavaScript's rendering of a number of half hours, with a minus sign when negative. */
  function NumberText(h: HalfHours): (s: string)
    ensures |s| >= 1
  {
    if h < 0 then "-" + UnsignedText(-h) else UnsignedText(h)
  }

  function ParseUnsigned(body: string): Option<nat> {
    var half := |body| >= 2 && body[|body| - 2..] == ".5";
    var whole := if half then body[..|body| - 2] else body;
    if |whole| >= 1 && AllDigits(whole)
    then Some(2 * ParseDigits(whole) + (if half then 1 else 0))
    else None
  }

  /** Reads a number of the form NumberText produces back into half hours. */
  function ParseNumber(s: string): Option<HalfHours> {
    if |s| >= 1 && s[0] == '-' then
      match ParseUnsigned(s[1..])
      case Some(a) => if a > 0 then Some(0 - a as int) else None
      case None => None
    else
      match ParseUnsigned(s)
      case Some(a) => Some(a)
      case None => None
  }

  lemma UnsignedRoundTrip(a: nat)
    ensures ParseUnsigned(UnsignedText(a)) == Some(a)
    ensures IsDigit(UnsignedText(a)[0])
  {
    var w := Digits(a / 2, 1);
    var body := UnsignedText(a);
    DigitsRoundTrip(a / 2, 1);
    if a % 2 == 1 {
      assert body[|body| - 2..] == ".5";
      assert body[..|body| - 2] == w;
    } else {
      assert body == w;
      assert |body| >= 2 ==> IsDigit(body[|body| - 2]);
    }
  }

  /** Rendering a number of half hours and reading it back gives the same number. */
  lemma NumberTextRoundTrip(h: HalfHours)
    ensures ParseNumber(NumberText(h)) == Some(h)
  {
    var t := NumberText(h);
    if h < 0 {
      var u := UnsignedText(-h);
      UnsignedRoundTrip(-h);
      assert t == "-" + u;
      assert t[1..] == u;
      assert ParseUnsigned(t[1..]) == Some(-h);
    } else {
      UnsignedRoundTrip(h);
      assert t == UnsignedText(h);
      assert t[0] != '-';
    }
  }

  /** The characters `String.prototype.trim` removes: white space and line terminators. */
  predicate IsJsWhitespace(c: char) {
    var u := c as int;
    u == 0x09 || u == 0x0A || u == 0x0B || u == 0x0C || u == 0x0D || u == 0x20
    || u == 0xA0 || u == 0x1680 || (0x2000 <= u <= 0x200A)
    || u == 0x2028 || u == 0x2029 || u == 0x202F || u == 0x205F
    || u == 0x3000 || u == 0xFEFF
  }

  function TrimStart(s: string): string {
    if s != [] && IsJsWhitespace(s[0]) then TrimStart(s[1..]) else s
  }

  function TrimEnd(s: string): string {
    if s != [] && IsJsWhitespace(s[|s| - 1]) then TrimEnd(s[..|s| - 1]) else s
  }

  function Trim(s: string): string {
    TrimEnd(TrimStart(s))
  }

  /** A text is blank once trimmed exactly when every character of it is white space. */
  lemma {:induction false} TrimEmptyIffWhitespace(s: string)
    ensures Trim(s) == "" <==> forall i :: 0 <= i < |s| ==> IsJsWhitespace(s[i])
  {
    TrimStartEmpty(s);
    var t := TrimStart(s);
    if t != [] {
      assert !IsJsWhitespace(t[0]);
      TrimEndKeepsFirst(t);
    }
  }

  lemma {:induction false} TrimStartEmpty(s: string)
    ensures TrimStart(s) == "" <==> forall i :: 0 <= i < |s| ==> IsJsWhitespace(s[i])
    ensures TrimStart(s) != "" ==> !IsJsWhitespace(TrimStart(s)[0])
  {
    if s != [] && IsJsWhitespace(s[0]) {
      TrimStartEmpty(s[1..]);
      assert forall i :: 1 <= i < |s| ==> s[i] == s[1..][i - 1];
    }
  }

  lemma {:induction false} TrimEndKeepsFirst(t: string)
    requires t != [] && !IsJsWhitespace(t[0])
    ensures TrimEnd(t) != []
  {
    if IsJsWhitespace(t[|t| - 1]) {
      TrimEndKeepsFirst(t[..|t| - 1]);
    }
  }

  /** `s.includes(q)`: q occurs in s at some position. */
  predicate Includes(s: string, q: string) {
    exists i | 0 <= i <= |s| - |q| :: OccursAt(s, q, i)
  }

  predicate OccursAt(s: string, q: string, i: int) {
    0 <= i <= |s| - |q| && s[i..i + |q|] == q
  }
}
