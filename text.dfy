/** String helpers of the Java and Guava libraries the modelled code calls:
    `Collectors.joining` / `StringJoiner`, `String.indexOf`, Guava's
    `CharMatcher.whitespace()`, `String.isBlank`, `Integer.toString` and
    `Integer.parseInt`. Strings are sequences of Unicode scalar values. */
module Text {
  import opened Wrappers

  // ---------------------------------------------------------------------
  // Joining

  /** The summed length of all items. */
  function TotalLength(items: seq<string>): nat {
    if |items| == 0 then 0 else |items[0]| + TotalLength(items[1..])
  }

  /** The items in order with `sep` between neighbours and nowhere else, as
      `Collectors.joining(sep)` and `StringJoiner(sep)` produce them. */
  function Join(items: seq<string>, sep: string): (r: string) {
    if |items| == 0 then ""
    else if |items| == 1 then items[0]
    else items[0] + sep + Join(items[1..], sep)
  }

  /** The joined text holds every item and one separator per gap. */
  lemma {:induction false} JoinLength(items: seq<string>, sep: string)
    ensures |Join(items, sep)| == TotalLength(items) + (if |items| == 0 then 0 else (|items| - 1) * |sep|)
  {
    if |items| > 1 {
      JoinLength(items[1..], sep);
    }
  }

  /** Putting one item in front of a non-empty list puts it and the
      separator in front of the joined text. */
  lemma JoinPrepend(x: string, items: seq<string>, sep: string)
    requires |items| >= 1
    ensures Join([x] + items, sep) == x + sep + Join(items, sep)
  {
    assert ([x] + items)[1..] == items;
  }

  /** The joins of short literal lists, item by item. */
  lemma JoinTwo(a: string, b: string, sep: string)
    ensures Join([a, b], sep) == a + sep + b
  {
    assert [a, b][1..] == [b];
  }

  lemma JoinThree(a: string, b: string, c: string, sep: string)
    ensures Join([a, b, c], sep) == a + sep + b + sep + c
  {
    assert [a, b, c][1..] == [b, c];
    JoinTwo(b, c, sep);
  }

  lemma JoinFour(a: string, b: string, c: string, d: string, sep: string)
    ensures Join([a, b, c, d], sep) == a + sep + b + sep + c + sep + d
  {
    assert [a, b, c, d][1..] == [b, c, d];
    JoinThree(b, c, d, sep);
  }

  lemma JoinSix(a: string, b: string, c: string, d: string, e: string, f: string, sep: string)
    ensures Join([a, b, c, d, e, f], sep) == a + sep + b + sep + c + sep + d + sep + e + sep + f
  {
    assert [a, b, c, d, e, f][1..] == [b, c, d, e, f];
    assert [b, c, d, e, f][1..] == [c, d, e, f];
    JoinFour(c, d, e, f, sep);
  }

  /** Three pieces appended one by one are their concatenation appended
      at once: a keyword between separators is one piece of text. */
  lemma AppendThree(u: string, a: string, b: string, c: string)
    ensures u + a + b + c == u + (a + b + c)
  {
  }

  /** Appending one item to a non-empty list appends the separator and the
      item to the joined text: the step of a join loop. */
  lemma {:induction false} JoinAppend(items: seq<string>, x: string, sep: string)
    requires |items| >= 1
    ensures Join(items + [x], sep) == Join(items, sep) + sep + x
  {
    if |items| == 1 {
      assert items + [x] == [items[0], x];
      assert [items[0], x][1..] == [x];
    } else {
      assert (items + [x])[1..] == items[1..] + [x];
      JoinAppend(items[1..], x, sep);
    }
  }

  /** Number of occurrences of `c` in `s`. */
  function Count(s: string, c: char): nat {
    if |s| == 0 then 0 else (if s[0] == c then 1 else 0) + Count(s[1..], c)
  }

  lemma {:induction false} CountConcat(a: string, b: string, c: char)
    ensures Count(a + b, c) == Count(a, c) + Count(b, c)
  {
    if |a| > 0 {
      assert (a + b)[1..] == a[1..] + b;
      CountConcat(a[1..], b, c);
    } else {
      assert a + b == b;
    }
  }

  /** Joining with the one-character separator `c` adds one `c` per gap
      to those already inside the items. */
  lemma {:induction false} CountJoin(items: seq<string>, c: char)
    requires |items| >= 1
    ensures Count(Join(items, [c]), c) == CountAll(items, c) + |items| - 1
  {
    if |items| > 1 {
      CountJoin(items[1..], c);
      CountConcat(items[0] + [c], Join(items[1..], [c]), c);
      CountConcat(items[0], [c], c);
      assert Count([c], c) == 1 by { assert [c][1..] == []; }
    }
  }

  /** Summed occurrences of `c` over all items. */
  function CountAll(items: seq<string>, c: char): nat {
    if |items| == 0 then 0 else Count(items[0], c) + CountAll(items[1..], c)
  }

  // ---------------------------------------------------------------------
  // Searching

  /** `s.indexOf(c)`: the first position of `c`, or `None` for Java's -1. */
  function IndexOf(s: string, c: char): (r: Option<nat>)
    ensures r.None? <==> c !in s
    ensures r.Some? ==> r.value < |s| && s[r.value] == c && c !in s[..r.value]
  {
    if |s| == 0 then None
    else if s[0] == c then Some(0)
    else match IndexOf(s[1..], c)
      case None => None
      case Some(i) =>
        assert s[..i + 1] == [s[0]] + s[1..][..i];
        Some(i + 1)
  }

  // ---------------------------------------------------------------------
  // Whitespace

  /** Guava's `CharMatcher.whitespace()`: the characters with the Unicode
      White_Space property. */
  predicate IsWhitespace(c: char) {
    || ('\t' <= c <= '\r')                  // U+0009..U+000D
    || c == ' ' || c == '\U{85}' || c == '\U{A0}' || c == '\U{1680}'
    || ('\U{2000}' <= c <= '\U{200A}')
    || c == '\U{2028}' || c == '\U{2029}' || c == '\U{202F}'
    || c == '\U{205F}' || c == '\U{3000}'
  }

  /** Java's `Character.isWhitespace`, which `String.isBlank` uses: space,
      line and paragraph separators except the three no-break spaces, plus
      U+0009..U+000D and U+001C..U+001F. */
  predicate IsJavaWhitespace(c: char) {
    || ('\t' <= c <= '\r')
    || ('\U{1C}' <= c <= '\U{1F}')
    || c == ' ' || c == '\U{1680}'
    || ('\U{2000}' <= c <= '\U{2006}') || ('\U{2008}' <= c <= '\U{200A}')
    || c == '\U{2028}' || c == '\U{2029}' || c == '\U{205F}' || c == '\U{3000}'
  }

  /** `CharMatcher.whitespace().matchesAnyOf(s)`. */
  predicate ContainsWhitespace(s: string) {
    exists i :: 0 <= i < |s| && IsWhitespace(s[i])
  }

  /** `s.isBlank()`: empty, or nothing but Java whitespace. */
  predicate IsBlank(s: string) {
    forall i :: 0 <= i < |s| ==> IsJavaWhitespace(s[i])
  }

  /** The strings `validateNoWhitespaceOrEmpty` lets through. */
  predicate NoWhitespaceOrEmpty(s: string) {
    |s| > 0 && !ContainsWhitespace(s)
  }

  /** Printable ASCII other than the space is whitespace under neither
      definition. */
  lemma PrintableText(s: string)
    requires |s| > 0 && forall i :: 0 <= i < |s| ==> '!' <= s[i] <= '~'
    ensures NoWhitespaceOrEmpty(s) && !IsBlank(s)
  {
    assert !IsJavaWhitespace(s[0]);
  }

  /** Space, tab and newline are whitespace under both definitions; the two
      definitions differ on U+00A0 (Guava only) and U+001C (Java only). */
  lemma WhitespaceDefinitions()
    ensures IsWhitespace(' ') && IsWhitespace('\t') && IsWhitespace('\n')
    ensures IsJavaWhitespace(' ') && IsJavaWhitespace('\t') && IsJavaWhitespace('\n')
    ensures IsWhitespace('\U{A0}') && !IsJavaWhitespace('\U{A0}')
    ensures IsJavaWhitespace('\U{1C}') && !IsWhitespace('\U{1C}')
  {
  }

  /** The two string checks are incomparable: a string with an inner space
      passes the blank check but not the whitespace check, and a string of
      U+001C passes the whitespace check although it is blank. */
  lemma BlankAndWhitespaceChecksDiffer()
    ensures !IsBlank("online orders") && !NoWhitespaceOrEmpty("online orders")
    ensures NoWhitespaceOrEmpty("\U{1C}") && IsBlank("\U{1C}")
  {
    assert IsWhitespace("online orders"[6]) && !IsJavaWhitespace("online orders"[0]);
  }

  // ---------------------------------------------------------------------
  // Decimal text

  predicate IsDigit(c: char) {
    '0' <= c <= '9'
  }

  /** Every character is an ASCII decimal digit (checked from the end, the
      way `DigitsValue` and `NatToDecimal` build their strings). */
  predicate AllDigits(s: string) {
    |s| == 0 || (AllDigits(s[..|s| - 1]) && IsDigit(s[|s| - 1]))
  }

  function DigitChar(d: nat): (c: char)
    requires d < 10
    ensures IsDigit(c) && (c as int) - ('0' as int) == d
  {
    (('0' as int) + d) as char
  }

  /** The number an ASCII digit string denotes in base 10. */
  function DigitsValue(s: string): nat
    requires AllDigits(s)
  {
    if |s| == 0 then 0
    else DigitsValue(s[..|s| - 1]) * 10 + ((s[|s| - 1] as int) - ('0' as int))
  }

  /** `Integer.toString(n)` for n >= 0: base-10 digits without leading zeros. */
  function NatToDecimal(n: nat): (r: string)
    ensures |r| >= 1 && AllDigits(r) && IsDigit(r[0])
    ensures r[0] == '0' ==> n == 0
    decreases n
  {
    if n < 10 then [DigitChar(n)]
    else
      var r := NatToDecimal(n / 10) + [DigitChar(n % 10)];
      assert r[..|r| - 1] == NatToDecimal(n / 10);
      r
  }

  /** `Integer.toString(i)` / `Long.toString(i)`: a minus sign for negative
      values, then the digits of the magnitude. */
  function IntToString(i: int): (r: string)
    ensures |r| >= 1
    ensures i >= 0 <==> r[0] != '-'
  {
    if i < 0 then "-" + NatToDecimal(-i) else NatToDecimal(i)
  }

  /** Reading back the digits `NatToDecimal` writes gives the number. */
  lemma {:induction false} DecimalRoundTrip(n: nat)
    ensures DigitsValue(NatToDecimal(n)) == n
    decreases n
  {
    var r := NatToDecimal(n);
    if n < 10 {
      assert r[..|r| - 1] == [];
    } else {
      assert r[..|r| - 1] == NatToDecimal(n / 10);
      DecimalRoundTrip(n / 10);
    }
  }

  /** The text after an optional leading `-` or `+`. */
  function Unsigned(s: string): (r: string)
    ensures |r| <= |s|
    ensures |r| < |s| <==> |s| > 0 && (s[0] == '-' || s[0] == '+')
  {
    if |s| > 0 && (s[0] == '-' || s[0] == '+') then s[1..] else s
  }

  const INT_MIN: int := -0x8000_0000
  const INT_MAX: int := 0x7FFF_FFFF

  /** `Integer.parseInt(s)` restricted to ASCII digits: an optional `-` or
      `+`, at least one digit, and a value in the 32-bit range; anything else
      is a `NumberFormatException`. */
  function ParseInt(s: string): (r: Result<int>)
    ensures r.Err? ==> r.error == NumberFormatException
    ensures r.Ok? ==> INT_MIN <= r.value <= INT_MAX
    ensures |s| == 0 ==> r.Err?
    ensures r.Ok? <==>
      |Unsigned(s)| > 0 && AllDigits(Unsigned(s)) &&
      DigitsValue(Unsigned(s)) <= (if s[0] == '-' then 0 - INT_MIN else INT_MAX)
    ensures r.Ok? ==> DigitsValue(Unsigned(s)) == (if r.value < 0 then 0 - r.value else r.value)
    ensures r.Ok? && r.value < 0 ==> |s| > 0 && s[0] == '-'
  {
    if |s| == 0 then Err(NumberFormatException)
    else
      var digits := Unsigned(s);
      if |digits| == 0 || !AllDigits(digits) then Err(NumberFormatException)
      else
        var v: int := if s[0] == '-' then 0 - DigitsValue(digits) else DigitsValue(digits);
        if INT_MIN <= v <= INT_MAX then Ok(v) else Err(NumberFormatException)
  }

  /** `Integer.parseInt(Integer.toString(i)) == i` for every 32-bit `i`. */
  lemma ParseIntToString(i: int)
    requires INT_MIN <= i <= INT_MAX
    ensures ParseInt(IntToString(i)) == Ok(i)
  {
    if i < 0 {
      var digits := NatToDecimal(-i);
      DecimalRoundTrip(-i);
      var s := "-" + digits;
      assert s == IntToString(i);
      assert s[0] == '-' && s[1..] == digits && Unsigned(s) == digits;
      assert |digits| > 0 && AllDigits(digits) && 0 - DigitsValue(digits) == i;
    } else {
      var digits := NatToDecimal(i);
      DecimalRoundTrip(i);
      assert digits == IntToString(i);
      assert digits[0] != '-' && digits[0] != '+' && Unsigned(digits) == digits;
      assert |digits| > 0 && AllDigits(digits) && DigitsValue(digits) == i;
    }
  }

  /** A minus sign yields a negative value or zero, so a parsed `-21` can
      never be a port. */
  lemma ParseIntNegative(s: string)
    requires |s| >= 2 && s[0] == '-'
    ensures ParseInt(s).Ok? ==> ParseInt(s).value <= 0
  {
  }
}
