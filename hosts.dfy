/** `Host`: a database host name, free of whitespace, with an optional
    port. */
module Hosts {
  import opened Wrappers
  import opened Text
  import Ports

  const SEPARATOR: char := ':'
  const LOCALHOST_VALUE: string := "localhost"

  /** The two record components; `port` is `null` when absent. */
  datatype Record = Record(name: string, port: Option<Ports.Port>)

  /** Every `Host` instance has passed the compact constructor's checks:
      its name is non-empty and contains no whitespace. */
  type Host = h: Record | NoWhitespaceOrEmpty(h.name) witness Record(LOCALHOST_VALUE, None)

  const LOCALHOST: Host := Record(LOCALHOST_VALUE, None)

  /** The compact constructor `new Host(name, port)`: a null name is a
      `NullPointerException`, an empty name or one with any whitespace an
      `IllegalArgumentException`; the port may be null. */
  function Create(name: Option<string>, port: Option<Ports.Port>): (r: Result<Host>)
    ensures name.None? ==> r == Err(NullPointerException)
    ensures name.Some? ==> (r.Ok? <==> |name.value| > 0 && !ContainsWhitespace(name.value))
    ensures name.Some? && r.Err? ==> r.error == IllegalArgumentException
    ensures r.Ok? ==> r.value.name == name.value && r.value.port == port
  {
    match name
    case None => Err(NullPointerException)
    case Some(n) =>
      if |n| == 0 then Err(IllegalArgumentException)
      else if ContainsWhitespace(n) then Err(IllegalArgumentException)
      else Ok(Record(n, port))
  }

  /** `new Host(name)`: the same as passing a null port. */
  function OfName(name: Option<string>): (r: Result<Host>)
    ensures r.Ok? <==> name.Some? && NoWhitespaceOrEmpty(name.value)
    ensures r.Ok? ==> name.Some? && r.value.name == name.value && r.value.port.None?
    ensures name.None? ==> r == Err(NullPointerException)
    ensures name.Some? && r.Err? ==> r.error == IllegalArgumentException
  {
    Create(name, None)
  }

  /** `localhostWithPort`: never fails, since the name is fixed and valid. */
  function LocalhostWithPort(port: Option<Ports.Port>): (r: Host)
    ensures Create(Some(LOCALHOST_VALUE), port) == Ok(r)
  {
    Record(LOCALHOST_VALUE, port)
  }

  /** `toString`: the name, followed by `:` and the port's decimal text when
      there is a port. */
  function ToString(h: Host): (r: string)
    ensures |r| >= |h.name| && r[..|h.name|] == h.name
    ensures h.port.None? <==> |r| == |h.name|
    ensures h.port.Some? ==> r[|h.name|] == SEPARATOR && r[|h.name| + 1..] == Ports.ToString(h.port.value)
  {
    match h.port
    case None => h.name
    case Some(p) => h.name + [SEPARATOR] + Ports.ToString(p)
  }

  /** `parse`: null is a `NullPointerException`. Without a `:` the whole
      text is the name and there is no port. Otherwise the text before the
      first `:` is the name and the rest is read by `Integer.parseInt`, then
      range-checked as a port, and only then is the name checked. */
  function Parse(s: Option<string>): (r: Result<Host>)
    ensures s.None? <==> r == Err(NullPointerException)
    ensures s.Some? && r.Err? ==> IsIllegalArgument(r.error)
    ensures s.Some? && SEPARATOR !in s.value ==> r == Create(s, None)
    ensures s.Some? && r.Ok? && SEPARATOR in s.value ==>
      && r.value.port.Some? && SEPARATOR !in r.value.name && |r.value.name| < |s.value|
      && s.value[..|r.value.name|] == r.value.name && s.value[|r.value.name|] == SEPARATOR
  {
    match s
    case None => Err(NullPointerException)
    case Some(text) =>
      match IndexOf(text, SEPARATOR)
      case None => Create(s, None)
      case Some(i) =>
        var hostname := text[..i];
        match ParseInt(text[i + 1..])
        case Err(e) => Err(e)
        case Ok(portValue) =>
          match Ports.Of(portValue)
          case Err(e) => Err(e)
          case Ok(port) => Create(Some(hostname), Some(port))
  }

  /** `name:rest` with a `:`-free name: `rest` is read as a port exactly as
      `Port.parse` reads it, and only then is the name checked. */
  lemma ParseSplit(name: string, rest: string)
    requires SEPARATOR !in name
    ensures Parse(Some(name + [SEPARATOR] + rest)) ==
      match Ports.Parse(Some(rest))
      case Err(e) => Err(e)
      case Ok(p) => Create(Some(name), Some(p))
  {
    var s := name + [SEPARATOR] + rest;
    FirstSeparator(name, rest);
    assert s[..|name|] == name;
    assert s[|name| + 1..] == rest;
  }

  /** `parse` accepts the port forms `Integer.parseInt` allows and
      `toString` never writes. */
  lemma ParseLeadingZeros()
    ensures Parse(Some("db:0080")) == Ok(Record("db", Some(80)))
  {
    Ports.ParseAcceptsLeadingZeros();
    PrintableText("db");
    ParseSplit("db", "0080");
    assert "db" + [SEPARATOR] + "0080" == "db:0080";
  }

  lemma ParseSign()
    ensures Parse(Some("db:+80")) == Ok(Record("db", Some(80)))
  {
    Ports.ParseAcceptsSign();
    PrintableText("db");
    ParseSplit("db", "+80");
    assert "db" + [SEPARATOR] + "+80" == "db:+80";
  }

  /** A name without `:` is found again after a `:` is appended to it. */
  lemma FirstSeparator(name: string, rest: string)
    requires SEPARATOR !in name
    ensures IndexOf(name + [SEPARATOR] + rest, SEPARATOR) == Some(|name|)
  {
    var s := name + [SEPARATOR] + rest;
    assert s[|name|] == SEPARATOR;
    assert forall j :: 0 <= j < |name| ==> s[j] == name[j];
  }

  /** Round trip: a host whose name has no `:` is parsed back from its
      text. */
  lemma ParseToString(h: Host)
    requires SEPARATOR !in h.name
    ensures Parse(Some(ToString(h))) == Ok(h)
  {
    match h.port
    case None =>
    case Some(p) =>
      var digits := Ports.ToString(p);
      var s := h.name + [SEPARATOR] + digits;
      FirstSeparator(h.name, digits);
      assert s[..|h.name|] == h.name;
      assert s[|h.name| + 1..] == digits;
      Ports.ParseToString(p);
  }

  /** A valid name that contains `:` does not survive the round trip: the
      text after its `:` is read as a port. */
  lemma ColonNameBreaksRoundTrip()
    ensures Parse(Some(ToString(Record("db:primary", None)))) == Err(NumberFormatException)
  {
    PrintableText("db:primary");
    assert !IsDigit("primary"[0]);
    ParseNoNumber("db:primary", "db", "primary");
  }

  /** The names the constructor rejects, with a null port. */
  lemma CreateRejects()
    ensures Create(None, None) == Err(NullPointerException)
    ensures Create(Some(""), None) == Err(IllegalArgumentException)
    ensures Create(Some("Hello World!"), None) == Err(IllegalArgumentException)
    ensures Create(Some("example . com"), None) == Err(IllegalArgumentException)
    ensures Create(Some(" "), None).Err? && Create(Some("\t"), None).Err? && Create(Some("\n"), None).Err?
  {
    assert IsWhitespace("Hello World!"[5]);
    assert IsWhitespace("example . com"[7]);
    assert IsWhitespace(" "[0]) && IsWhitespace("\t"[0]) && IsWhitespace("\n"[0]);
  }

  /** The text forms with and without a port. */
  lemma ToStringExamples()
    ensures ToString(Record("example.com", Some(3306))) == "example.com:3306"
    ensures ToString(Record("example.org", None)) == "example.org"
  {
    assert Ports.ToString(3306) == "3306";
  }

  /** `name:digits` parses to the host with that name and port whenever
      the name is valid and free of `:` and the digits are the port's text. */
  lemma ParseWithPort(s: string, name: string, p: Ports.Port, digits: string)
    requires s == name + [SEPARATOR] + digits
    requires NoWhitespaceOrEmpty(name) && SEPARATOR !in name && Ports.ToString(p) == digits
    ensures Parse(Some(s)) == Ok(Record(name, Some(p)))
  {
    ParseToString(Record(name, Some(p)));
  }

  /** `parse` of the bare local host name. */
  lemma ParseLocalhost()
    ensures Parse(Some("localhost")) == Ok(LOCALHOST)
  {
    ParseToString(LOCALHOST);
  }

  /** A valid name without `:` parses to the host with that name and no
      port. */
  lemma ParseName(s: string)
    requires NoWhitespaceOrEmpty(s) && SEPARATOR !in s
    ensures Parse(Some(s)) == Ok(Record(s, None))
  {
  }

  /** `parse` of two other bare names. */
  lemma ParseExampleName()
    ensures Parse(Some("example.com")) == Ok(Record("example.com", None))
  {
    PrintableText("example.com");
    assert forall i :: 0 <= i < |"example.com"| ==> "example.com"[i] != SEPARATOR;
    ParseName("example.com");
  }

  lemma ParseDottedName()
    ensures Parse(Some("ruz.spbstu.ru")) == Ok(Record("ruz.spbstu.ru", None))
  {
    PrintableText("ruz.spbstu.ru");
    assert forall i :: 0 <= i < |"ruz.spbstu.ru"| ==> "ruz.spbstu.ru"[i] != SEPARATOR;
    ParseName("ruz.spbstu.ru");
  }

  /** `parse` of the local host name with port 0. */
  lemma ParseLocalhostPortZero()
    ensures Parse(Some("localhost:0")) == Ok(LocalhostWithPort(Some(0)))
  {
    Ports.ToStringMin();
    PrintableText("localhost");
    ParseWithPort("localhost:0", "localhost", 0, "0");
  }

  /** `parse` of a name with a port. */
  lemma ParseNameWithPort()
    ensures Parse(Some("example.org:5432")) == Ok(Record("example.org", Some(5432)))
  {
    assert Ports.ToString(5432) == "5432";
    PrintableText("example.org");
    assert "example.org" + [SEPARATOR] + "5432" == "example.org:5432";
    ParseWithPort("example.org:5432", "example.org", 5432, "5432");
  }

  /** `parse` of a name with the greatest port. */
  lemma ParseNameWithMaxPort()
    ensures Parse(Some("spbstu.ru:65535")) == Ok(Record("spbstu.ru", Some(Ports.MAX)))
  {
    Ports.ToStringMax();
    PrintableText("spbstu.ru");
    assert "spbstu.ru" + [SEPARATOR] + "65535" == "spbstu.ru:65535";
    ParseWithPort("spbstu.ru:65535", "spbstu.ru", 65535, "65535");
  }

  /** Without a `:`, `parse` rejects what the constructor rejects. */
  lemma ParseRejectsName()
    ensures Parse(None) == Err(NullPointerException)
    ensures Parse(Some("")) == Err(IllegalArgumentException)
    ensures Parse(Some("\t")) == Err(IllegalArgumentException)
  {
    assert IsWhitespace("\t"[0]);
  }

  /** Without a `:`, a name with whitespace at index `i` is rejected. */
  lemma ParseWhitespaceName(s: string, i: nat)
    requires SEPARATOR !in s && i < |s| && IsWhitespace(s[i])
    ensures Parse(Some(s)) == Err(IllegalArgumentException)
  {
  }

  /** An inner space is rejected too. */
  lemma ParseRejectsInnerSpace()
    ensures Parse(Some("Hello World!")) == Err(IllegalArgumentException)
  {
    ParseWhitespaceName("Hello World!", 5);
  }

  /** Nothing after the `:` to read as a number. */
  lemma ParseRejectsMissingPort()
    ensures Parse(Some("example.com:")) == Err(NumberFormatException)
  {
    ParseNoNumber("example.com:", "example.com", "");
  }

  /** `name:rest` is a `NumberFormatException` when `rest` is not a
      number, whatever the name. */
  lemma ParseNoNumber(s: string, name: string, rest: string)
    requires s == name + [SEPARATOR] + rest
    requires SEPARATOR !in name && ParseInt(rest).Err?
    ensures Parse(Some(s)) == Err(NumberFormatException)
  {
    FirstSeparator(name, rest);
    assert s[|name| + 1..] == rest;
  }

  /** `name:digits` is rejected with an `IllegalArgumentException` when
      the digits read as a number outside the port range, whatever the
      name. */
  lemma ParseOutOfRange(s: string, name: string, digits: string, v: int)
    requires s == name + [SEPARATOR] + digits
    requires SEPARATOR !in name && ParseInt(digits) == Ok(v) && !(Ports.MIN_VALUE <= v <= Ports.MAX_VALUE)
    ensures Parse(Some(s)) == Err(IllegalArgumentException)
  {
    FirstSeparator(name, digits);
    assert s[|name| + 1..] == digits;
  }

  /** `name:digits` is rejected with an `IllegalArgumentException` when the
      digits are a valid port but the name is not. */
  lemma ParseInvalidName(s: string, name: string, digits: string, p: Ports.Port)
    requires s == name + [SEPARATOR] + digits
    requires SEPARATOR !in name && ParseInt(digits) == Ok(p as int) && !NoWhitespaceOrEmpty(name)
    ensures Parse(Some(s)) == Err(IllegalArgumentException)
  {
    FirstSeparator(name, digits);
    assert s[|name| + 1..] == digits;
    assert s[..|name|] == name;
  }

  /** A number after the `:` above the port range. */
  lemma ParseRejectsPortTooLarge()
    ensures Parse(Some("example.org:1287361")) == Err(IllegalArgumentException)
  {
    ParseLargeNumber();
    ParseOutOfRange("example.org:1287361", "example.org", "1287361", 1287361);
  }

  lemma ParseLargeNumber()
    ensures ParseInt("1287361") == Ok(1287361)
  {
    LargeNumberText();
    ParseIntToString(1287361);
  }

  lemma LargeNumberText()
    ensures IntToString(1287361) == "1287361"
  {
    assert NatToDecimal(12) == "12";
    assert NatToDecimal(128) == "12" + "8";
    assert NatToDecimal(1287) == "128" + "7";
    assert NatToDecimal(12873) == "1287" + "3";
    assert NatToDecimal(128736) == "12873" + "6";
    assert NatToDecimal(1287361) == "128736" + "1";
  }

  /** A number after the `:` below the port range. */
  lemma ParseRejectsNegativePort()
    ensures Parse(Some("example.org:-1")) == Err(IllegalArgumentException)
  {
    assert IntToString(-1) == "-1";
    ParseIntToString(-1);
    ParseOutOfRange("example.org:-1", "example.org", "-1", -1);
  }

  /** A valid port after a name the constructor rejects: the name is
      checked last. */
  lemma ParseRejectsNameAfterPort()
    ensures Parse(Some("Hello World:36")) == Err(IllegalArgumentException)
  {
    assert IntToString(36) == "36";
    ParseIntToString(36);
    assert IsWhitespace("Hello World"[5]);
    ParseInvalidName("Hello World:36", "Hello World", "36", 36);
  }

  /** The same with a name that is nothing but a tab. */
  lemma ParseRejectsBlankNameAfterPort()
    ensures Parse(Some("\t:123")) == Err(IllegalArgumentException)
  {
    assert IntToString(123) == "123";
    ParseIntToString(123);
    assert IsWhitespace("\t"[0]);
    ParseInvalidName("\t:123", "\t", "123", 123);
  }
}
