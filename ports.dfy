/** `Port`: a TCP port number, range-checked at construction, with a
    decimal text form. */
module Ports {
  import opened Wrappers
  import opened Text

  const MIN_VALUE: int := 0
  const MAX_VALUE: int := 65535

  /** Every `Port` instance holds a value the compact constructor accepted. */
  newtype Port = v: int | MIN_VALUE <= v <= MAX_VALUE

  const MIN: Port := 0
  const MAX: Port := 65535

  /** `new Port(value)`: any 32-bit `value` outside [0, 65535] is an
      `IllegalArgumentException`. */
  function Of(value: int): (r: Result<Port>)
    ensures r.Ok? <==> MIN_VALUE <= value <= MAX_VALUE
    ensures r.Ok? ==> r.value as int == value
    ensures r.Err? ==> r.error == IllegalArgumentException
  {
    if value < MIN_VALUE || value > MAX_VALUE then Err(IllegalArgumentException)
    else Ok(value as Port)
  }

  /** `toString`: the plain decimal digits of the value, with no sign and no
      leading zero. */
  function ToString(p: Port): (r: string)
    ensures 1 <= |r| && AllDigits(r) && DigitsValue(r) == p as int
    ensures r[0] == '0' ==> r == "0"
  {
    DecimalRoundTrip(p as nat);
    var r := NatToDecimal(p as nat);
    assert r[0] == '0' ==> p == 0;
    r
  }

  /** `parse`: null is a `NullPointerException`; text `Integer.parseInt`
      rejects is a `NumberFormatException`; a number outside the range is an
      `IllegalArgumentException`. */
  function Parse(s: Option<string>): (r: Result<Port>)
    ensures s.None? <==> r == Err(NullPointerException)
    ensures s.Some? && r.Err? ==> IsIllegalArgument(r.error)
    ensures s.Some? ==>
      (r.Ok? <==> ParseInt(s.value).Ok? && MIN_VALUE <= ParseInt(s.value).value <= MAX_VALUE)
    ensures s.Some? && r.Ok? ==> r.value as int == ParseInt(s.value).value
  {
    match s
    case None => Err(NullPointerException)
    case Some(text) =>
      match ParseInt(text)
      case Err(e) => Err(e)
      case Ok(value) => Of(value)
  }

  /** `compareTo`: `Integer.compare` of the two values, so -1, 0 or 1. */
  function CompareTo(p: Port, other: Port): (r: int)
    ensures -1 <= r <= 1
    ensures r < 0 <==> p < other
    ensures r == 0 <==> p == other
    ensures r > 0 <==> p > other
  {
    if p < other then -1 else if p == other then 0 else 1
  }

  /** Round trip: parsing a port's text gives the same port back. */
  lemma ParseToString(p: Port)
    ensures Parse(Some(ToString(p))) == Ok(p)
  {
    ParseIntToString(p as int);
    assert IntToString(p as int) == NatToDecimal(p as nat);
  }

  /** Two ports have the same text exactly when they are the same port. */
  lemma ToStringInjective(p: Port, q: Port)
    ensures ToString(p) == ToString(q) <==> p == q
  {
  }

  /** `compareTo` is a total order: antisymmetric and transitive. */
  lemma CompareToOrder(a: Port, b: Port, c: Port)
    ensures CompareTo(a, b) == -CompareTo(b, a)
    ensures CompareTo(a, b) <= 0 && CompareTo(b, c) <= 0 ==> CompareTo(a, c) <= 0
  {
  }

  /** `MIN` and `MAX` are the least and greatest ports. */
  lemma MinMaxBounds(p: Port)
    ensures CompareTo(MIN, p) <= 0 && CompareTo(p, MAX) <= 0
    ensures MIN as int == MIN_VALUE && MAX as int == MAX_VALUE
  {
  }

  /** The values the constructor accepts and rejects. */
  lemma ConstructionExamples()
    ensures Of(-1).Err? && Of(65536).Err? && Of(INT_MIN).Err? && Of(INT_MAX).Err?
    ensures Of(0).Ok? && Of(1024).Ok? && Of(49152).Ok? && Of(65535).Ok?
    ensures Of(3306).Ok? && Of(1433).Ok? && Of(1521).Ok? && Of(5432).Ok?
  {
  }

  /** The text forms of the least and the greatest port. */
  lemma ToStringMin()
    ensures ToString(MIN) == "0"
  {
  }

  lemma ToStringMax()
    ensures ToString(MAX) == "65535"
  {
  }

  /** The strings `parse` rejects with an `IllegalArgumentException` (its
      `NumberFormatException` subclass or the range check). */
  lemma ParseRejects()
    ensures Parse(Some("")).Err? && Parse(Some("Twenty One")).Err? && Parse(Some("Twenty 1")).Err?
    ensures Parse(Some("-21")) == Err(IllegalArgumentException)
    ensures Parse(Some("65536")) == Err(IllegalArgumentException)
  {
    assert IntToString(-21) == "-21" && IntToString(65536) == "65536";
    ParseIntToString(-21);
    ParseIntToString(65536);
  }

  /** Text `parse` accepts, including the forms `parseInt` allows that
      `toString` never produces. */
  lemma ParseAccepts()
    ensures Parse(Some("3306")) == Ok(3306)
  {
    assert ToString(3306) == "3306";
    ParseToString(3306);
  }

  lemma ParseAcceptsSign()
    ensures Parse(Some("+80")) == Ok(80)
  {
    assert "+80"[1..] == "80" && "80"[..1] == "8" && AllDigits("80") && DigitsValue("80") == 80;
  }

  lemma ParseAcceptsLeadingZeros()
    ensures Parse(Some("0080")) == Ok(80)
  {
    assert "0080"[..3] == "008" && "008"[..2] == "00" && "00"[..1] == "0";
    assert AllDigits("0080") && DigitsValue("0080") == 80;
  }
}
