/**
 The literal printers of the catalog generator, each with a reader that gets
 the printed value back.
 */
module CatalogText {
  import opened Prelude
  import opened Decimal

  // ----- strings -----

  /** Python's str.replace for a one-character pattern. */
  function Replace(s: string, c: char, with: string): string {
    if s == "" then ""
    else (if s[0] == c then with else [s[0]]) + Replace(s[1..], c, with)
  }

  /** nat_string: two replacements, one after the other, then quotes. */
  function NatString(value: string): string {
    "'" + Replace(Replace(value, '\\', "\\\\"), '\'', "\\'") + "'"
  }

  function EscapeChar(c: char): string {
    if c == '\\' then "\\\\" else if c == '\'' then "\\'" else [c]
  }

  function Escape(s: string): string {
    if s == "" then "" else EscapeChar(s[0]) + Escape(s[1..])
  }

  lemma {:induction false} ReplaceConcat(a: string, b: string, c: char, with: string)
    ensures Replace(a + b, c, with) == Replace(a, c, with) + Replace(b, c, with)
    decreases a
  {
    if a == "" {
      assert a + b == b;
    } else {
      assert (a + b)[1..] == a[1..] + b;
      ReplaceConcat(a[1..], b, c, with);
    }
  }

  lemma ReplaceTwo(a: char, b: char, c: char, with: string)
    ensures Replace([a], c, with) == if a == c then with else [a]
    ensures Replace([a, b], c, with) == (if a == c then with else [a]) + (if b == c then with else [b])
  {
    assert [a][1..] == "" && [a, b][1..] == [b] && [b][1..] == "";
    assert Replace("", c, with) == "";
  }

  /** The two sequential replacements amount to escaping character by character. */
  lemma {:induction false} SequentialIsPerCharacter(s: string)
    ensures Replace(Replace(s, '\\', "\\\\"), '\'', "\\'") == Escape(s)
    decreases s
  {
    if s != "" {
      var first := if s[0] == '\\' then "\\\\" else [s[0]];
      ReplaceConcat(first, Replace(s[1..], '\\', "\\\\"), '\'', "\\'");
      ReplaceTwo('\\', '\\', '\'', "\\'");
      ReplaceTwo(s[0], '\\', '\'', "\\'");
      SequentialIsPerCharacter(s[1..]);
    }
  }

  /** Reads a quoted literal off the front of a text; the first unescaped quote ends it. */
  function ReadString(text: string): Option<(string, string)> {
    if text != "" && text[0] == '\'' then ReadBody(text[1..]) else None
  }

  function ReadBody(text: string): Option<(string, string)> {
    if text == "" then None
    else if text[0] == '\'' then Some(("", text[1..]))
    else if text[0] == '\\' then
      if |text| >= 2 && (text[1] == '\\' || text[1] == '\'') then Prepend(text[1], ReadBody(text[2..])) else None
    else Prepend(text[0], ReadBody(text[1..]))
  }

  function Prepend(c: char, r: Option<(string, string)>): Option<(string, string)> {
    if r.None? then None else Some(([c] + r.value.0, r.value.1))
  }

  lemma {:induction false} EscapedReadsBack(s: string, rest: string)
    ensures ReadBody(Escape(s) + "'" + rest) == Some((s, rest))
    decreases s
  {
    var text := Escape(s) + "'" + rest;
    if s == "" {
      assert text[1..] == rest;
    } else {
      var tail := Escape(s[1..]) + "'" + rest;
      assert text == EscapeChar(s[0]) + tail;
      EscapedReadsBack(s[1..], rest);
      assert [s[0]] + s[1..] == s;
      if s[0] == '\\' || s[0] == '\'' {
        assert text[0] == '\\' && text[1] == s[0] && text[2..] == tail;
      } else {
        assert text[0] == s[0] && text[1..] == tail;
      }
    }
  }

  /** Every string comes back, and whatever follows the literal is left alone. */
  lemma StringReadsBack(value: string, rest: string)
    ensures ReadString(NatString(value) + rest) == Some((value, rest))
  {
    SequentialIsPerCharacter(value);
    var text := NatString(value) + rest;
    assert text[0] == '\'' && text[1..] == Escape(value) + "'" + rest;
    EscapedReadsBack(value, rest);
  }

  // ----- numbers -----

  /** A float counts in units of 10^-10; the sign is kept apart because of negative zero. */
  datatype Number = Missing | Truth(b: bool) | Whole(n: int) | Units(negative: bool, units: nat)

  function Pow10(n: nat): (p: nat)
    ensures p >= 1
  {
    if n == 0 then 1 else 10 * Pow10(n - 1)
  }

  /** v followed by some zeros. */
  function Shift(v: nat, places: nat): nat
    decreases places
  {
    if places == 0 then v else 10 * Shift(v, places - 1)
  }

  lemma TenPlaces()
    ensures Pow10(10) == 10_000_000_000
  {
    assert Pow10(5) == 100000;
  }

  function Zeros(n: nat): (s: string)
    ensures |s| == n && IsNumeral(s) && forall i | 0 <= i < n :: s[i] == '0'
  {
    seq(n, _ => '0')
  }

  /** The last w digits of n, zeros included. */
  function LastDigits(n: nat, w: nat): (s: string)
    ensures |s| == w && IsNumeral(s)
  {
    if w == 0 then "" else LastDigits(n / 10, w - 1) + [DigitChar(n % 10)]
  }

  function SignText(negative: bool): string { if negative then "-" else "" }

  /** `f"{value:.10f}"` */
  function Fixed10(negative: bool, units: nat): string {
    SignText(negative) + Digits(units / 10_000_000_000) + "." + LastDigits(units % 10_000_000_000, 10)
  }

  /** nat_float */
  function NatFloat(value: Number): string {
    match value
    case Missing => "0.0"
    case Truth(b) => if b then "true" else "false"
    case Whole(n) => SignText(n < 0) + Digits(if n < 0 then -n else n) + ".0"
    case Units(negative, units) => Finish(Fixed10(negative, units), Trim(Fixed10(negative, units)))
  }

  /** `.rstrip("0").rstrip(".")` */
  function Trim(fixed: string): string { TrimRight(TrimRight(fixed, '0'), '.') }

  /** The corrections after the two strips. */
  function Finish(fixed: string, trimmed: string): string {
    var text := if trimmed == "" || trimmed == "-" then "0" else trimmed;
    var plain := if 'e' in text || 'E' in text then fixed else text;
    if '.' !in plain then plain + ".0" else plain
  }

  function IndexOf(s: string, c: char): (i: nat)
    ensures i <= |s| && c !in s[..i]
    ensures i < |s| ==> s[i] == c
  {
    if s == "" || s[0] == c then 0 else
    var i := 1 + IndexOf(s[1..], c);
    assert s[..i] == [s[0]] + s[1..][..i - 1];
    i
  }

  /** Digits, one dot, at most ten digits; the result counts units of 10^-10. */
  function ReadUnsigned(s: string): Option<nat> {
    var i := IndexOf(s, '.');
    if i == |s| then None else ReadSplit(s[..i], s[i + 1..])
  }

  function ReadSplit(whole: string, fraction: string): Option<nat> {
    if whole != "" && 0 < |fraction| <= 10 && IsNumeral(whole) && IsNumeral(fraction) then
      Some(Value(whole) * 10_000_000_000 + Shift(Value(fraction), 10 - |fraction|))
    else None
  }

  function ReadNumber(s: string): Option<(bool, nat)> {
    var negative := s != "" && s[0] == '-';
    var r := ReadUnsigned(if negative then s[1..] else s);
    if r.None? then None else Some((negative, r.value))
  }

  // ----- numbers read back -----

  lemma {:induction false} LastDigitsValue(n: nat, w: nat)
    requires n < Pow10(w)
    ensures Value(LastDigits(n, w)) == n
    decreases w
  {
    if w > 0 {
      LastDigitsValue(n / 10, w - 1);
      var s := LastDigits(n, w);
      assert s[..w - 1] == LastDigits(n / 10, w - 1);
    }
  }

  lemma {:induction false} TrailingZeros(s: string, n: nat)
    requires IsNumeral(s)
    ensures IsNumeral(s + Zeros(n)) && Value(s + Zeros(n)) == Shift(Value(s), n)
    decreases n
  {
    if n == 0 {
      assert s + Zeros(0) == s;
    } else {
      var t := s + Zeros(n);
      assert t[..|t| - 1] == s + Zeros(n - 1) && t[|t| - 1] == '0';
      TrailingZeros(s, n - 1);
    }
  }

  /** rstrip removes a run of the character and stops. */
  lemma {:induction false} TrimRightRun(s: string, c: char) returns (n: nat)
    ensures n <= |s| && TrimRight(s, c) == s[..|s| - n]
    ensures forall i | |s| - n <= i < |s| :: s[i] == c
    ensures n == |s| || s[|s| - n - 1] != c
    decreases s
  {
    n := 0;
    if s != "" && s[|s| - 1] == c {
      var m := TrimRightRun(s[..|s| - 1], c);
      n := m + 1;
    } else {
      assert s[..|s|] == s;
    }
  }

  lemma NoDotInNumeral(s: string)
    requires IsNumeral(s)
    ensures '.' !in s && 'e' !in s && 'E' !in s
  {
  }

  lemma DotAt(whole: string, fraction: string)
    requires IsNumeral(whole)
    ensures IndexOf(whole + "." + fraction, '.') == |whole|
  {
    var s := whole + "." + fraction;
    assert forall k | 0 <= k < |whole| :: s[k] == whole[k] && IsDigit(whole[k]);
    assert s[|whole|] == '.';
    assert forall k | |whole| < k <= |s| :: s[..k][|whole|] == '.';
  }

  lemma SliceParts(whole: string, fraction: string)
    ensures var s := whole + "." + fraction;
            |s| == |whole| + 1 + |fraction| && s[..|whole|] == whole && s[|whole| + 1..] == fraction
  {
  }

  lemma ReadParts(whole: string, fraction: string)
    requires IsNumeral(whole)
    ensures ReadUnsigned(whole + "." + fraction) == ReadSplit(whole, fraction)
  {
    DotAt(whole, fraction);
    SliceParts(whole, fraction);
  }

  lemma ReadSigned(text: string, negative: bool, body: string, units: nat)
    requires text == SignText(negative) + body && body != "" && IsDigit(body[0])
    requires ReadUnsigned(body) == Some(units)
    ensures ReadNumber(text) == Some((negative, units))
  {
    if negative {
      assert text[1..] == body;
    } else {
      assert text == body;
    }
  }

  /** What the two strips and the corrections leave of the fixed form. */
  lemma TrimmedForm(head: string, digits: string) returns (fraction: string)
    requires '.' !in head && 'e' !in head && 'E' !in head && head != "" && head != "-"
    requires |digits| == 10 && IsNumeral(digits)
    ensures Finish(head + "." + digits, Trim(head + "." + digits)) == head + "." + fraction
    ensures 0 < |fraction| <= 10 && IsNumeral(fraction)
    ensures Shift(Value(fraction), 10 - |fraction|) == Value(digits)
  {
    var n := TrimRightRun(digits, '0');
    if n == 10 {
      fraction := "0";
      ZeroFraction(digits);
      AllZeros(head, digits);
      FinishWhole(head + "." + digits, head);
    } else {
      fraction := digits[..10 - n];
      SomeDigits(head, digits, n);
      FractionValue(digits, n);
      PlainFraction(head, fraction);
      FinishFraction(head + "." + digits, head + "." + fraction);
    }
  }

  lemma FinishWhole(fixed: string, head: string)
    requires '.' !in head && 'e' !in head && 'E' !in head && head != "" && head != "-"
    ensures Finish(fixed, head) == head + "." + "0"
  {
  }

  lemma FinishFraction(fixed: string, text: string)
    requires 'e' !in text && 'E' !in text && '.' in text && text != "" && text != "-"
    ensures Finish(fixed, text) == text
  {
  }

  lemma FractionValue(digits: string, n: nat)
    requires IsNumeral(digits) && n <= |digits| && forall i | |digits| - n <= i < |digits| :: digits[i] == '0'
    ensures Value(digits) == Shift(Value(digits[..|digits| - n]), n)
  {
    assert digits == digits[..|digits| - n] + Zeros(n);
    TrailingZeros(digits[..|digits| - n], n);
  }

  lemma Regroup(sign: string, whole: string, fraction: string)
    ensures (sign + whole) + "." + fraction == sign + (whole + "." + fraction)
    ensures (sign + whole) + ".0" == (sign + whole) + "." + "0"
  {
  }

  lemma {:induction false} ShiftZero(places: nat)
    ensures Shift(0, places) == 0
  {
    if places > 0 {
      ShiftZero(places - 1);
    }
  }

  lemma ZeroFraction(digits: string)
    requires |digits| == 10 && forall i | 0 <= i < |digits| :: digits[i] == '0'
    ensures IsNumeral(digits) && Value(digits) == 0 && Shift(Value("0"), 9) == 0
  {
    assert digits == "" + Zeros(10);
    TrailingZeros("", 10);
    assert "0"[..0] == "" && Value("0") == 0;
    ShiftZero(9);
    ShiftZero(10);
  }

  lemma PlainText(negative: bool, whole: string)
    requires IsNumeral(whole) && whole != ""
    ensures var head := SignText(negative) + whole;
            '.' !in head && 'e' !in head && 'E' !in head && head != "" && head != "-"
  {
    NoDotInNumeral(whole);
    var head := SignText(negative) + whole;
    assert head[|head| - 1] == whole[|whole| - 1] && IsDigit(whole[|whole| - 1]);
  }

  lemma PlainFraction(head: string, fraction: string)
    requires 'e' !in head && 'E' !in head && IsNumeral(fraction) && head != ""
    ensures var text := head + "." + fraction;
            'e' !in text && 'E' !in text && '.' in text && text != "" && text != "-"
  {
    NoDotInNumeral(fraction);
    assert (head + "." + fraction)[|head|] == '.';
  }

  lemma {:induction false} TrimRightConcat(a: string, b: string, c: char)
    requires TrimRight(b, c) != ""
    ensures TrimRight(a + b, c) == a + TrimRight(b, c)
    decreases b
  {
    assert (a + b)[..|a + b| - 1] == a + b[..|b| - 1];
    if b[|b| - 1] == c {
      TrimRightConcat(a, b[..|b| - 1], c);
    }
  }

  lemma {:induction false} TrimRightAll(a: string, b: string, c: char)
    requires forall i | 0 <= i < |b| :: b[i] == c
    ensures TrimRight(a + b, c) == TrimRight(a, c)
    decreases b
  {
    if b == "" {
      assert a + b == a;
    } else {
      assert (a + b)[..|a + b| - 1] == a + b[..|b| - 1];
      TrimRightAll(a, b[..|b| - 1], c);
    }
  }

  lemma AllZeros(head: string, digits: string)
    requires head != "" && '.' !in head && forall i | 0 <= i < |digits| :: digits[i] == '0'
    ensures Trim(head + "." + digits) == head
  {
    TrimRightAll(head + ".", digits, '0');
    TrimRightAll(head, ".", '.');
    assert head[|head| - 1] in head;
  }

  lemma SomeDigits(head: string, digits: string, n: nat)
    requires n < |digits| && IsNumeral(digits) && TrimRight(digits, '0') == digits[..|digits| - n]
    ensures Trim(head + "." + digits) == head + "." + digits[..|digits| - n]
  {
    var text := head + "." + digits[..|digits| - n];
    TrimRightConcat(head + ".", digits, '0');
    assert text[|text| - 1] == digits[|digits| - n - 1];
    assert IsDigit(digits[|digits| - n - 1]);
  }

  /** Reading any text of this shape. */
  lemma ReadShape(text: string, negative: bool, whole: string, fraction: string, units: nat)
    requires text == (SignText(negative) + whole) + "." + fraction
    requires whole != "" && IsNumeral(whole) && ReadSplit(whole, fraction) == Some(units)
    ensures ReadNumber(text) == Some((negative, units))
  {
    ReadParts(whole, fraction);
    assert (whole + "." + fraction)[0] == whole[0] && IsDigit(whole[0]);
    Regroup(SignText(negative), whole, fraction);
    ReadSigned(text, negative, whole + "." + fraction, units);
  }

  /**
   Every multiple of 10^-10 reads back exactly; the literal has digits on both
   sides of its only dot.
   */
  lemma FloatReadsBack(negative: bool, units: nat)
    ensures ReadNumber(NatFloat(Units(negative, units))) == Some((negative, units))
  {
    var (w, f) := (units / 10_000_000_000, units % 10_000_000_000);
    var digits := LastDigits(f, 10);
    PlainText(negative, Digits(w));
    var fraction := TrimmedForm(SignText(negative) + Digits(w), digits);
    DigitsReadBack(w);
    TenPlaces();
    LastDigitsValue(f, 10);
    assert ReadSplit(Digits(w), fraction) == Some(units);
    ReadShape(NatFloat(Units(negative, units)), negative, Digits(w), fraction, units);
  }

  function WholeUnits(size: nat): nat { size * 10_000_000_000 }

  lemma WholeReadsBack(n: int)
    ensures ReadNumber(NatFloat(Whole(n))) == Some((n < 0, WholeUnits(if n < 0 then -n else n)))
  {
    var size := if n < 0 then -n else n;
    var units := WholeUnits(size);
    DigitsReadBack(size);
    ZeroFraction(Zeros(10));
    assert ReadSplit(Digits(size), "0") == Some(units);
    Regroup(SignText(n < 0), Digits(size), "0");
    ReadShape(NatFloat(Whole(n)), n < 0, Digits(size), "0", units);
  }

  /** A quote and a backslash as they are printed. */
  lemma QuotedLiterals()
    ensures NatString("it's") == "'it\\'s'" && NatString("a\\b") == "'a\\\\b'"
  {
    SequentialIsPerCharacter("it's");
    SequentialIsPerCharacter("a\\b");
    assert "it's"[1..] == "t's" && "t's"[1..] == "'s" && "'s"[1..] == "s" && "s"[1..] == "";
    assert "a\\b"[1..] == "\\b" && "\\b"[1..] == "b" && "b"[1..] == "";
    assert Escape("'s") == "\\'s" && Escape("\\b") == "\\\\b";
  }

  /** An absent number and a negative one. */
  lemma NumberLiterals()
    ensures NatFloat(Missing) == "0.0" && NatFloat(Whole(-3)) == "-3.0"
  {
    assert Digits(3) == "3";
    assert "-" + "3" + ".0" == "-3.0";
  }

  lemma MissingIsZero()
    ensures NatFloat(Missing) == NatFloat(Whole(0))
  {
    assert Digits(0) == "0";
    assert "" + "0" + ".0" == "0.0";
  }
}
