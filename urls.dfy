/** `URLBuilder`: a mutable builder for JDBC connection URLs of the form
    `<protocol><suffix><host>,<host>/<schema><prefix><name>=<value><delimiter>...`.

    The builder's fields are gathered in a `Config` value, so that each
    setter states its whole new state as an update of the old one and
    `build` is specified by the pure function `Url` of that value.
    `URLEncoder.encode` is not part of this model: `build` takes it as a
    function parameter. */
module Urls {
  import opened Wrappers
  import opened Text
  import Protocols
  import Hosts
  import Ports

  const DEFAULT_PROTOCOL_SUFFIX: string := "//"
  const DEFAULT_PROPERTY_LIST_PREFIX: string := "?"
  const DEFAULT_PROPERTY_DELIMITER: string := "&"

  /** One entry of the `properties` `LinkedHashMap`. */
  datatype Property = Property(name: string, value: string)

  // ---------------------------------------------------------------------
  // The insertion-ordered property map

  /** The map's keys in insertion order. */
  function Names(props: seq<Property>): seq<string> {
    if |props| == 0 then [] else [props[0].name] + Names(props[1..])
  }

  predicate Distinct(names: seq<string>) {
    forall i, j :: 0 <= i < j < |names| ==> names[i] != names[j]
  }

  /** `get`: the value stored under `name`, if any. */
  function Get(props: seq<Property>, name: string): Option<string> {
    if |props| == 0 then None
    else if props[0].name == name then Some(props[0].value)
    else Get(props[1..], name)
  }

  /** `put`: a key already present keeps its position and takes the new
      value; a new key goes to the end. */
  function Put(props: seq<Property>, name: string, value: string): (r: seq<Property>)
    ensures Property(name, value) in r
    ensures |r| == |props| + (if name in Names(props) then 0 else 1)
  {
    if |props| == 0 then [Property(name, value)]
    else if props[0].name == name then [Property(name, value)] + props[1..]
    else [props[0]] + Put(props[1..], name, value)
  }

  /** `containsKey` agrees with the key list. */
  lemma {:induction false} GetNames(props: seq<Property>, name: string)
    ensures Get(props, name).Some? <==> name in Names(props)
  {
    if |props| > 0 {
      GetNames(props[1..], name);
    }
  }

  /** After `put`, `get` of that key returns the new value. */
  lemma {:induction false} PutGet(props: seq<Property>, name: string, value: string)
    ensures Get(Put(props, name, value), name) == Some(value)
  {
    if |props| > 0 && props[0].name != name {
      PutGet(props[1..], name, value);
      assert Put(props, name, value)[1..] == Put(props[1..], name, value);
    }
  }

  /** `put` leaves every other key's value alone. */
  lemma {:induction false} PutGetOther(props: seq<Property>, name: string, value: string, other: string)
    requires other != name
    ensures Get(Put(props, name, value), other) == Get(props, other)
  {
    if |props| > 0 {
      if props[0].name == name {
        assert Put(props, name, value)[1..] == props[1..];
      } else {
        PutGetOther(props[1..], name, value, other);
        assert Put(props, name, value)[1..] == Put(props[1..], name, value);
      }
    }
  }

  /** `put` keeps the key order: an existing key does not move and the
      count stays, a new key is appended. */
  lemma {:induction false} PutNames(props: seq<Property>, name: string, value: string)
    ensures name in Names(props) ==> Names(Put(props, name, value)) == Names(props)
    ensures name !in Names(props) ==> Names(Put(props, name, value)) == Names(props) + [name]
  {
    if |props| == 0 {
    } else if props[0].name == name {
      assert ([Property(name, value)] + props[1..])[1..] == props[1..];
    } else {
      PutNames(props[1..], name, value);
      var r := Put(props, name, value);
      assert r[0] == props[0] && r[1..] == Put(props[1..], name, value);
      assert Names(props) == [props[0].name] + Names(props[1..]);
      assert name in Names(props) <==> name in Names(props[1..]);
    }
  }

  lemma {:induction false} NamesLength(props: seq<Property>)
    ensures |Names(props)| == |props|
    ensures forall i :: 0 <= i < |props| ==> Names(props)[i] == props[i].name
  {
    if |props| > 0 {
      NamesLength(props[1..]);
    }
  }

  /** `put` keeps the keys distinct, as a map's are. */
  lemma PutDistinct(props: seq<Property>, name: string, value: string)
    requires Distinct(Names(props))
    ensures Distinct(Names(Put(props, name, value)))
  {
    PutNames(props, name, value);
  }

  // ---------------------------------------------------------------------
  // The builder's state

  /** The seven fields of a `URLBuilder`. */
  datatype Config = Config(
    protocol: Protocols.Protocol,
    protocolSuffix: Option<string>,
    hosts: seq<Hosts.Host>,
    schemaName: Option<string>,
    propertyListPrefix: string,
    properties: seq<Property>,
    propertyDelimiter: string)

  /** What the setters guarantee about every reachable state. */
  predicate WellFormed(c: Config) {
    && (c.protocolSuffix.Some? ==> NoWhitespaceOrEmpty(c.protocolSuffix.value))
    && (c.schemaName.Some? ==> !IsBlank(c.schemaName.value))
    && NoWhitespaceOrEmpty(c.propertyListPrefix)
    && NoWhitespaceOrEmpty(c.propertyDelimiter)
    && Distinct(Names(c.properties))
    && (forall i :: 0 <= i < |c.properties| ==>
          NoWhitespaceOrEmpty(c.properties[i].name) && !IsBlank(c.properties[i].value))
  }

  /** The constructor's configuration. */
  function Defaults(protocol: Protocols.Protocol): (c: Config)
    ensures WellFormed(c)
  {
    assert !IsWhitespace(DEFAULT_PROTOCOL_SUFFIX[0]) && !IsWhitespace(DEFAULT_PROTOCOL_SUFFIX[1]);
    assert !IsWhitespace(DEFAULT_PROPERTY_LIST_PREFIX[0]) && !IsWhitespace(DEFAULT_PROPERTY_DELIMITER[0]);
    Config(protocol, Some(DEFAULT_PROTOCOL_SUFFIX), [], None,
           DEFAULT_PROPERTY_LIST_PREFIX, [], DEFAULT_PROPERTY_DELIMITER)
  }

  // ---------------------------------------------------------------------
  // The built URL

  function HostTexts(hosts: seq<Hosts.Host>): seq<string> {
    seq(|hosts|, i requires 0 <= i < |hosts| => Hosts.ToString(hosts[i]))
  }

  /** One property as `name=` and the encoded value. */
  function PropertyText(p: Property, encode: string -> string): string {
    p.name + "=" + encode(p.value)
  }

  function PropertyTexts(props: seq<Property>, encode: string -> string): seq<string> {
    seq(|props|, i requires 0 <= i < |props| => PropertyText(props[i], encode))
  }

  /** The suffix, when there is one. */
  function SuffixPart(c: Config): string {
    if c.protocolSuffix.Some? then c.protocolSuffix.value else ""
  }

  /** The hosts' texts joined by `,`; nothing without hosts. */
  function HostsPart(c: Config): string {
    if |c.hosts| == 0 then "" else Join(HostTexts(c.hosts), ",")
  }

  /** The encoded schema name, after a `/` when there are hosts. */
  function SchemaPart(c: Config, encode: string -> string): string {
    match c.schemaName
    case None => ""
    case Some(name) => (if |c.hosts| > 0 then "/" else "") + encode(name)
  }

  /** The prefix and the properties joined by the delimiter; nothing
      without properties. */
  function PropertiesPart(c: Config, encode: string -> string): string {
    if |c.properties| == 0 then ""
    else c.propertyListPrefix + Join(PropertyTexts(c.properties, encode), c.propertyDelimiter)
  }

  /** The URL `build` returns for configuration `c`. */
  function Url(c: Config, encode: string -> string): (r: string)
    ensures |r| >= |Protocols.ToString(c.protocol)|
    ensures r[..|Protocols.ToString(c.protocol)|] == Protocols.ToString(c.protocol)
  {
    Protocols.ToString(c.protocol) + SuffixPart(c) + HostsPart(c) + SchemaPart(c, encode) + PropertiesPart(c, encode)
  }

  /** Every URL starts with `jdbc:`, whatever the protocol. */
  lemma UrlStartsWithProtocol(c: Config, encode: string -> string)
    ensures |Url(c, encode)| >= 6 && Url(c, encode)[..5] == "jdbc:"
  {
    var p := Protocols.ToString(c.protocol);
    var u := Url(c, encode);
    assert u[..5] == u[..|p|][..5];
  }

  /** The schema follows a `/` exactly when there is at least one host. */
  lemma SchemaSlash(c: Config, encode: string -> string, name: string)
    requires c.schemaName == Some(name)
    ensures |c.hosts| > 0 ==>
      Url(c, encode) ==
        Protocols.ToString(c.protocol) + SuffixPart(c) + HostsPart(c) + "/" + encode(name) + PropertiesPart(c, encode)
    ensures |c.hosts| == 0 ==>
      Url(c, encode) ==
        Protocols.ToString(c.protocol) + SuffixPart(c) + encode(name) + PropertiesPart(c, encode)
  {
    var p, s, e := Protocols.ToString(c.protocol), SuffixPart(c), PropertiesPart(c, encode);
    if |c.hosts| > 0 {
      assert SchemaPart(c, encode) == "/" + encode(name);
      AppendAssoc(p + s + HostsPart(c), "/", encode(name));
    } else {
      assert HostsPart(c) == "";
      assert p + s + HostsPart(c) == p + s;
    }
  }

  /** Without properties, the prefix and delimiter do not show: changing
      them does not change the URL. */
  lemma NoPropertiesNoPrefix(c: Config, encode: string -> string, prefix: string, delimiter: string)
    requires |c.properties| == 0
    ensures Url(c.(propertyListPrefix := prefix, propertyDelimiter := delimiter), encode) == Url(c, encode)
    ensures Url(c, encode) == Protocols.ToString(c.protocol) + SuffixPart(c) + HostsPart(c) + SchemaPart(c, encode)
  {
  }

  /** `addHost` of one more host extends the host list's text by `,` and
      that host's text (or makes it exactly that text for the first host). */
  lemma AddHostExtendsHosts(c: Config, h: Hosts.Host)
    ensures |c.hosts| == 0 ==> HostsPart(c.(hosts := c.hosts + [h])) == Hosts.ToString(h)
    ensures |c.hosts| > 0 ==>
      HostsPart(c.(hosts := c.hosts + [h])) == HostsPart(c) + "," + Hosts.ToString(h)
  {
    assert HostTexts(c.hosts + [h]) == HostTexts(c.hosts) + [Hosts.ToString(h)];
    if |c.hosts| > 0 {
      JoinAppend(HostTexts(c.hosts), Hosts.ToString(h), ",");
    }
  }

  /** `setProperty` with a new name extends the property list's text by the
      delimiter and the new pair (or starts it with the prefix). */
  lemma NewPropertyExtendsProperties(c: Config, encode: string -> string, name: string, value: string)
    requires name !in Names(c.properties)
    ensures |c.properties| == 0 ==>
      PropertiesPart(c.(properties := Put(c.properties, name, value)), encode) ==
        c.propertyListPrefix + PropertyText(Property(name, value), encode)
    ensures |c.properties| > 0 ==>
      PropertiesPart(c.(properties := Put(c.properties, name, value)), encode) ==
        PropertiesPart(c, encode) + c.propertyDelimiter + PropertyText(Property(name, value), encode)
  {
    var props := c.properties;
    var p := Property(name, value);
    PutAppends(props, name, value);
    var texts := PropertyTexts(props + [p], encode);
    assert texts == PropertyTexts(props, encode) + [PropertyText(p, encode)];
    if |props| > 0 {
      JoinAppend(PropertyTexts(props, encode), PropertyText(p, encode), c.propertyDelimiter);
    } else {
      assert texts == [PropertyText(p, encode)];
    }
  }

  /** `put` of a new key is an append. */
  lemma {:induction false} PutAppends(props: seq<Property>, name: string, value: string)
    requires name !in Names(props)
    ensures Put(props, name, value) == props + [Property(name, value)]
  {
    if |props| > 0 {
      assert props[0].name != name;
      PutAppends(props[1..], name, value);
      assert props == [props[0]] + props[1..];
    }
  }

  /** `setProperty` on an existing name changes only that pair's text: the
      number of pairs and every other pair stay. */
  lemma {:induction false} ReplacePropertyKeepsPosition(props: seq<Property>, encode: string -> string, name: string, value: string)
    requires Distinct(Names(props)) && name in Names(props)
    ensures |PropertyTexts(Put(props, name, value), encode)| == |PropertyTexts(props, encode)|
    ensures forall i :: 0 <= i < |props| && props[i].name != name ==>
      PropertyTexts(Put(props, name, value), encode)[i] == PropertyTexts(props, encode)[i]
  {
    PutNames(props, name, value);
    NamesLength(props);
    NamesLength(Put(props, name, value));
    PutKeepsOthers(props, name, value);
  }

  /** `put` touches no entry but the one under `name`. */
  lemma {:induction false} PutKeepsOthers(props: seq<Property>, name: string, value: string)
    requires name in Names(props)
    ensures |Put(props, name, value)| == |props|
    ensures forall i :: 0 <= i < |props| && props[i].name != name ==> Put(props, name, value)[i] == props[i]
  {
    if props[0].name != name {
      PutKeepsOthers(props[1..], name, value);
      var r := Put(props, name, value);
      assert r == [props[0]] + Put(props[1..], name, value);
      forall i | 0 <= i < |props| && props[i].name != name
        ensures r[i] == props[i]
      {
        if i > 0 {
          assert r[i] == Put(props[1..], name, value)[i - 1];
        }
      }
    }
  }

  // ---------------------------------------------------------------------
  // `addHosts` helpers

  /** The index of the first null, or the length when there is none. */
  function NullIndex(xs: seq<Option<Hosts.Host>>): (r: nat)
    ensures r <= |xs|
    ensures forall j :: 0 <= j < r ==> xs[j].Some?
    ensures r < |xs| ==> xs[r].None?
  {
    if |xs| == 0 || xs[0].None? then 0 else 1 + NullIndex(xs[1..])
  }

  /** The hosts of a null-free prefix. */
  function Values(xs: seq<Option<Hosts.Host>>): seq<Hosts.Host>
    requires forall j :: 0 <= j < |xs| ==> xs[j].Some?
  {
    seq(|xs|, j requires 0 <= j < |xs| && xs[j].Some? => xs[j].value)
  }

  // ---------------------------------------------------------------------
  // The builder

  class URLBuilder {
    var protocol: Protocols.Protocol
    var protocolSuffix: Option<string>
    var hosts: seq<Hosts.Host>
    var schemaName: Option<string>
    var propertyListPrefix: string
    var properties: seq<Property>
    var propertyDelimiter: string

    function State(): Config
      reads this
    {
      Config(protocol, protocolSuffix, hosts, schemaName, propertyListPrefix, properties, propertyDelimiter)
    }

    predicate Valid()
      reads this
    {
      WellFormed(State())
    }

    /** `new URLBuilder(protocol)` with a non-null protocol. */
    constructor (protocol: Protocols.Protocol)
      ensures State() == Defaults(protocol) && Valid()
    {
      this.protocol := protocol;
      protocolSuffix := Some(DEFAULT_PROTOCOL_SUFFIX);
      hosts := [];
      schemaName := None;
      propertyListPrefix := DEFAULT_PROPERTY_LIST_PREFIX;
      properties := [];
      propertyDelimiter := DEFAULT_PROPERTY_DELIMITER;
    }

    /** `setProtocol`: null is a `NullPointerException`. */
    method SetProtocol(protocol: Option<Protocols.Protocol>) returns (o: Outcome)
      requires Valid()
      modifies this
      ensures Valid()
      ensures protocol.None? ==> o == Fail(NullPointerException) && State() == old(State())
      ensures protocol.Some? ==> o == Pass && State() == old(State()).(protocol := protocol.value)
    {
      if protocol.None? {
        return Fail(NullPointerException);
      }
      this.protocol := protocol.value;
      o := Pass;
    }

    /** `setProtocolSuffix(String)`: null means no suffix; an empty suffix
        or one with any whitespace is an `IllegalArgumentException`. */
    method SetProtocolSuffix(suffix: Option<string>) returns (o: Outcome)
      requires Valid()
      modifies this
      ensures Valid()
      ensures suffix.Some? && !NoWhitespaceOrEmpty(suffix.value) ==>
        o == Fail(IllegalArgumentException) && State() == old(State())
      ensures suffix.None? || NoWhitespaceOrEmpty(suffix.value) ==>
        o == Pass && State() == old(State()).(protocolSuffix := suffix)
    {
      if suffix.Some? && !NoWhitespaceOrEmpty(suffix.value) {
        return Fail(IllegalArgumentException);
      }
      protocolSuffix := suffix;
      o := Pass;
    }

    /** `setProtocolSuffix(char)`: the one-character string. */
    method SetProtocolSuffixChar(suffix: char) returns (o: Outcome)
      requires Valid()
      modifies this
      ensures Valid()
      ensures IsWhitespace(suffix) ==> o == Fail(IllegalArgumentException) && State() == old(State())
      ensures !IsWhitespace(suffix) ==> o == Pass && State() == old(State()).(protocolSuffix := Some([suffix]))
    {
      assert [suffix][0] == suffix;
      o := SetProtocolSuffix(Some([suffix]));
    }

    /** `addHost`: null is a `NullPointerException`; a host goes to the end
        of the list. */
    method AddHost(host: Option<Hosts.Host>) returns (o: Outcome)
      requires Valid()
      modifies this
      ensures Valid()
      ensures host.None? ==> o == Fail(NullPointerException) && State() == old(State())
      ensures host.Some? ==> o == Pass && State() == old(State()).(hosts := old(hosts) + [host.value])
    {
      if host.None? {
        return Fail(NullPointerException);
      }
      hosts := hosts + [host.value];
      o := Pass;
    }

    /** `addHosts`, both the `Iterable` and the varargs form: a null
        collection is a `NullPointerException` and adds nothing; otherwise
        the hosts are added in order by `addHost`, so a null element stops
        the call with a `NullPointerException` after the hosts before it. */
    method AddHosts(hs: Option<seq<Option<Hosts.Host>>>) returns (o: Outcome)
      requires Valid()
      modifies this
      ensures Valid()
      ensures hs.None? ==> o == Fail(NullPointerException) && State() == old(State())
      ensures hs.Some? ==>
        && State() == old(State()).(hosts := old(hosts) + Values(hs.value[..NullIndex(hs.value)]))
        && (o == Pass <==> NullIndex(hs.value) == |hs.value|)
        && (o.Fail? ==> o.error == NullPointerException)
    {
      if hs.None? {
        return Fail(NullPointerException);
      }
      var xs := hs.value;
      var i := 0;
      while i < |xs|
        invariant 0 <= i <= |xs|
        invariant forall j :: 0 <= j < i ==> xs[j].Some?
        invariant Valid()
        invariant State() == old(State()).(hosts := old(hosts) + Values(xs[..i]))
      {
        var r := AddHost(xs[i]);
        if r.Fail? {
          assert NullIndex(xs) == i;
          return r;
        }
        assert Values(xs[..i + 1]) == Values(xs[..i]) + [xs[i].value];
        i := i + 1;
      }
      assert xs[..i] == xs;
      o := Pass;
    }

    /** `setSchemaName`: null means no schema; a blank name (empty or all
        whitespace) is an `IllegalArgumentException`, but inner whitespace
        is allowed. */
    method SetSchemaName(schemaName: Option<string>) returns (o: Outcome)
      requires Valid()
      modifies this
      ensures Valid()
      ensures schemaName.Some? && IsBlank(schemaName.value) ==>
        o == Fail(IllegalArgumentException) && State() == old(State())
      ensures schemaName.None? || !IsBlank(schemaName.value) ==>
        o == Pass && State() == old(State()).(schemaName := schemaName)
    {
      if schemaName.Some? && IsBlank(schemaName.value) {
        return Fail(IllegalArgumentException);
      }
      this.schemaName := schemaName;
      o := Pass;
    }

    /** `setPropertyListPrefix(String)`: null is a `NullPointerException`;
        an empty prefix or one with any whitespace is an
        `IllegalArgumentException`. */
    method SetPropertyListPrefix(prefix: Option<string>) returns (o: Outcome)
      requires Valid()
      modifies this
      ensures Valid()
      ensures prefix.None? ==> o == Fail(NullPointerException) && State() == old(State())
      ensures prefix.Some? && !NoWhitespaceOrEmpty(prefix.value) ==>
        o == Fail(IllegalArgumentException) && State() == old(State())
      ensures prefix.Some? && NoWhitespaceOrEmpty(prefix.value) ==>
        o == Pass && State() == old(State()).(propertyListPrefix := prefix.value)
    {
      if prefix.None? {
        return Fail(NullPointerException);
      }
      if !NoWhitespaceOrEmpty(prefix.value) {
        return Fail(IllegalArgumentException);
      }
      propertyListPrefix := prefix.value;
      o := Pass;
    }

    /** `setPropertyListPrefix(char)`: the one-character string. */
    method SetPropertyListPrefixChar(prefix: char) returns (o: Outcome)
      requires Valid()
      modifies this
      ensures Valid()
      ensures IsWhitespace(prefix) ==> o == Fail(IllegalArgumentException) && State() == old(State())
      ensures !IsWhitespace(prefix) ==> o == Pass && State() == old(State()).(propertyListPrefix := [prefix])
    {
      assert [prefix][0] == prefix;
      o := SetPropertyListPrefix(Some([prefix]));
    }

    /** `setProperty(String, String)`, checking in this order: a null name
        is a `NullPointerException`, an empty name or one with whitespace an
        `IllegalArgumentException`, a null value a `NullPointerException`,
        a blank value an `IllegalArgumentException`. Otherwise the pair is
        put into the insertion-ordered map. */
    method SetProperty(name: Option<string>, value: Option<string>) returns (o: Outcome)
      requires Valid()
      modifies this
      ensures Valid()
      ensures name.None? ==> o == Fail(NullPointerException) && State() == old(State())
      ensures name.Some? && !NoWhitespaceOrEmpty(name.value) ==>
        o == Fail(IllegalArgumentException) && State() == old(State())
      ensures name.Some? && NoWhitespaceOrEmpty(name.value) && value.None? ==>
        o == Fail(NullPointerException) && State() == old(State())
      ensures name.Some? && NoWhitespaceOrEmpty(name.value) && value.Some? && IsBlank(value.value) ==>
        o == Fail(IllegalArgumentException) && State() == old(State())
      ensures name.Some? && NoWhitespaceOrEmpty(name.value) && value.Some? && !IsBlank(value.value) ==>
        o == Pass && State() == old(State()).(properties := Put(old(properties), name.value, value.value))
    {
      if name.None? {
        return Fail(NullPointerException);
      }
      if !NoWhitespaceOrEmpty(name.value) {
        return Fail(IllegalArgumentException);
      }
      if value.None? {
        return Fail(NullPointerException);
      }
      if IsBlank(value.value) {
        return Fail(IllegalArgumentException);
      }
      PutDistinct(properties, name.value, value.value);
      PutValid(properties, name.value, value.value);
      properties := Put(properties, name.value, value.value);
      o := Pass;
    }

    /** The `byte`, `short`, `int` and `long` forms of `setProperty`: the
        value's decimal text, which is never blank. */
    method SetIntegerProperty(name: Option<string>, value: int) returns (o: Outcome)
      requires Valid()
      modifies this
      ensures Valid()
      ensures o == Pass <==> name.Some? && NoWhitespaceOrEmpty(name.value)
      ensures name.None? ==> o == Fail(NullPointerException)
      ensures name.Some? && !NoWhitespaceOrEmpty(name.value) ==> o == Fail(IllegalArgumentException)
      ensures o.Fail? ==> State() == old(State())
      ensures o == Pass ==> State() == old(State()).(properties := Put(old(properties), name.value, IntToString(value)))
    {
      DecimalIsNotBlank(value);
      o := SetProperty(name, Some(IntToString(value)));
    }

    /** The `boolean` form: `true` or `false`. */
    method SetBooleanProperty(name: Option<string>, value: bool) returns (o: Outcome)
      requires Valid()
      modifies this
      ensures Valid()
      ensures o == Pass <==> name.Some? && NoWhitespaceOrEmpty(name.value)
      ensures name.None? ==> o == Fail(NullPointerException)
      ensures name.Some? && !NoWhitespaceOrEmpty(name.value) ==> o == Fail(IllegalArgumentException)
      ensures o.Fail? ==> State() == old(State())
      ensures o == Pass ==>
        State() == old(State()).(properties := Put(old(properties), name.value, if value then "true" else "false"))
    {
      var text := if value then "true" else "false";
      assert !IsJavaWhitespace(text[0]);
      o := SetProperty(name, Some(text));
    }

    /** The `char` form: a one-character string, which is blank when the
        character is Java whitespace. */
    method SetCharProperty(name: Option<string>, value: char) returns (o: Outcome)
      requires Valid()
      modifies this
      ensures Valid()
      ensures o == Pass <==> name.Some? && NoWhitespaceOrEmpty(name.value) && !IsJavaWhitespace(value)
      ensures name.None? ==> o == Fail(NullPointerException)
      ensures name.Some? && !NoWhitespaceOrEmpty(name.value) ==> o == Fail(IllegalArgumentException)
      ensures name.Some? && NoWhitespaceOrEmpty(name.value) && IsJavaWhitespace(value) ==>
        o == Fail(IllegalArgumentException)
      ensures o.Fail? ==> State() == old(State())
      ensures o == Pass ==> State() == old(State()).(properties := Put(old(properties), name.value, [value]))
    {
      assert [value][0] == value;
      o := SetProperty(name, Some([value]));
    }

    /** `setPropertyDelimiter(String)`: null is a `NullPointerException`; an
        empty delimiter or one with any whitespace is an
        `IllegalArgumentException`. */
    method SetPropertyDelimiter(delimiter: Option<string>) returns (o: Outcome)
      requires Valid()
      modifies this
      ensures Valid()
      ensures delimiter.None? ==> o == Fail(NullPointerException) && State() == old(State())
      ensures delimiter.Some? && !NoWhitespaceOrEmpty(delimiter.value) ==>
        o == Fail(IllegalArgumentException) && State() == old(State())
      ensures delimiter.Some? && NoWhitespaceOrEmpty(delimiter.value) ==>
        o == Pass && State() == old(State()).(propertyDelimiter := delimiter.value)
    {
      if delimiter.None? {
        return Fail(NullPointerException);
      }
      if !NoWhitespaceOrEmpty(delimiter.value) {
        return Fail(IllegalArgumentException);
      }
      propertyDelimiter := delimiter.value;
      o := Pass;
    }

    /** `setPropertyDelimiter(char)`: the one-character string. */
    method SetPropertyDelimiterChar(delimiter: char) returns (o: Outcome)
      requires Valid()
      modifies this
      ensures Valid()
      ensures IsWhitespace(delimiter) ==> o == Fail(IllegalArgumentException) && State() == old(State())
      ensures !IsWhitespace(delimiter) ==> o == Pass && State() == old(State()).(propertyDelimiter := [delimiter])
    {
      assert [delimiter][0] == delimiter;
      o := SetPropertyDelimiter(Some([delimiter]));
    }

    /** `build`, appending part by part as the source's `StringBuilder`
        does. It changes nothing. */
    method Build(encode: string -> string) returns (url: string)
      ensures url == Url(State(), encode)
    {
      ghost var c := State();
      var sb := Protocols.ToString(protocol);
      if protocolSuffix.Some? {
        sb := sb + protocolSuffix.value;
      }
      AppendEmpty(Protocols.ToString(protocol), SuffixPart(c));
      assert sb == Protocols.ToString(c.protocol) + SuffixPart(c);
      if |hosts| > 0 {
        var joinedHosts := Join(HostTexts(hosts), ",");
        sb := sb + joinedHosts;
      }
      AppendEmpty(Protocols.ToString(c.protocol) + SuffixPart(c), HostsPart(c));
      assert sb == Protocols.ToString(c.protocol) + SuffixPart(c) + HostsPart(c);
      if schemaName.Some? {
        if |hosts| > 0 {
          sb := sb + "/";
        }
        var encodedName := encode(schemaName.value);
        sb := sb + encodedName;
        AppendAssoc(Protocols.ToString(c.protocol) + SuffixPart(c) + HostsPart(c), if |hosts| > 0 then "/" else "", encodedName);
        AppendEmpty(Protocols.ToString(c.protocol) + SuffixPart(c) + HostsPart(c), if |hosts| > 0 then "/" else "");
      }
      AppendEmpty(Protocols.ToString(c.protocol) + SuffixPart(c) + HostsPart(c), SchemaPart(c, encode));
      assert sb == Protocols.ToString(c.protocol) + SuffixPart(c) + HostsPart(c) + SchemaPart(c, encode);
      if |properties| > 0 {
        var joinedProperties := propertyListPrefix + Join(PropertyTexts(properties, encode), propertyDelimiter);
        sb := sb + joinedProperties;
      }
      AppendEmpty(Protocols.ToString(c.protocol) + SuffixPart(c) + HostsPart(c) + SchemaPart(c, encode), PropertiesPart(c, encode));
      url := sb;
    }
  }

  lemma AppendAssoc(a: string, b: string, c: string)
    ensures a + b + c == a + (b + c)
  {
  }

  /** Appending nothing changes nothing. */
  lemma AppendEmpty(a: string, b: string)
    ensures b == "" ==> a + b == a
  {
  }

  /** A checked pair keeps every pair in the map valid after `put`. */
  lemma {:induction false} PutValid(props: seq<Property>, name: string, value: string)
    requires forall i :: 0 <= i < |props| ==> NoWhitespaceOrEmpty(props[i].name) && !IsBlank(props[i].value)
    requires NoWhitespaceOrEmpty(name) && !IsBlank(value)
    ensures forall i :: 0 <= i < |Put(props, name, value)| ==>
      NoWhitespaceOrEmpty(Put(props, name, value)[i].name) && !IsBlank(Put(props, name, value)[i].value)
  {
    if |props| > 0 && props[0].name != name {
      PutValid(props[1..], name, value);
      var r := Put(props, name, value);
      assert r == [props[0]] + Put(props[1..], name, value);
    }
  }

  /** A decimal text starts with `-` or a digit, so it is never blank. */
  lemma DecimalIsNotBlank(i: int)
    ensures !IsBlank(IntToString(i))
  {
    var r := IntToString(i);
    if i >= 0 {
      assert IsDigit(r[0]);
    }
    assert !IsJavaWhitespace(r[0]);
  }

  /** `new URLBuilder(protocol)`: a null protocol is a
      `NullPointerException`. */
  method New(protocol: Option<Protocols.Protocol>) returns (r: Result<URLBuilder>)
    ensures protocol.None? ==> r == Err(NullPointerException)
    ensures protocol.Some? ==> r.Ok? && fresh(r.value) && r.value.State() == Defaults(protocol.value) && r.value.Valid()
  {
    if protocol.None? {
      return Err(NullPointerException);
    }
    var b := new URLBuilder(protocol.value);
    r := Ok(b);
  }

  // ---------------------------------------------------------------------
  // The builder configurations the tests check

  /** The URL of a configuration, from the texts of its five parts. */
  lemma UrlFromParts(c: Config, encode: string -> string, p: string, s: string, h: string, sc: string, pr: string)
    requires Protocols.ToString(c.protocol) == p && SuffixPart(c) == s && HostsPart(c) == h
    requires SchemaPart(c, encode) == sc && PropertiesPart(c, encode) == pr
    ensures Url(c, encode) == p + s + h + sc + pr
  {
  }

  /** MySQL, the default suffix set again, the local host, schema `sakila`. */
  method MySqlLocalhost(encode: string -> string) returns (url: string)
    requires encode("sakila") == "sakila"
    ensures url == "jdbc:mysql://localhost/sakila"
  {
    var b := new URLBuilder(Protocols.MySql);
    var o := b.SetProtocolSuffix(Some("//"));
    o := b.AddHost(Some(Hosts.LOCALHOST));
    assert !IsJavaWhitespace("sakila"[0]);
    o := b.SetSchemaName(Some("sakila"));
    url := b.Build(encode);
    Protocols.MySqlText();
    assert HostTexts([Hosts.LOCALHOST]) == ["localhost"];
    UrlFromParts(b.State(), encode, "jdbc:mysql:", "//", "localhost", "/sakila", "");
    MySqlLocalhostText();
  }

  lemma MySqlLocalhostText()
    ensures "jdbc:mysql:" + "//" + "localhost" + "/sakila" + "" == "jdbc:mysql://localhost/sakila"
  {
  }

  /** PostgreSQL without a suffix and without hosts: no `/` before the
      schema. */
  method PostgreSqlSchemaOnly(encode: string -> string) returns (url: string)
    requires encode("test_db") == "test_db"
    ensures url == "jdbc:postgresql:test_db"
  {
    var b := new URLBuilder(Protocols.PostgreSql);
    var o := b.SetProtocolSuffix(None);
    assert !IsJavaWhitespace("test_db"[0]);
    o := b.SetSchemaName(Some("test_db"));
    assert b.State() == Defaults(Protocols.PostgreSql).(protocolSuffix := None, schemaName := Some("test_db"));
    url := b.Build(encode);
    Protocols.PostgreSqlText();
    UrlFromParts(b.State(), encode, "jdbc:postgresql:", "", "", "test_db", "");
  }

  /** Oracle with the `@` suffix and the local host on port 1521. */
  method OracleThinWithPort(encode: string -> string) returns (url: string)
    requires encode("test_db") == "test_db"
    ensures url == "jdbc:oracle:thin:@localhost:1521/test_db"
  {
    var b := new URLBuilder(Protocols.OracleThin);
    var o := b.SetProtocolSuffixChar('@');
    var host := Hosts.LocalhostWithPort(Some(1521));
    o := b.AddHost(Some(host));
    assert !IsJavaWhitespace("test_db"[0]);
    o := b.SetSchemaName(Some("test_db"));
    assert b.State() == OracleConfig();
    url := b.Build(encode);
    OracleUrl(encode);
  }

  function OracleConfig(): Config {
    Defaults(Protocols.OracleThin).(protocolSuffix := Some("@"), schemaName := Some("test_db"),
      hosts := [Hosts.LocalhostWithPort(Some(1521))])
  }

  lemma OracleUrl(encode: string -> string)
    requires encode("test_db") == "test_db"
    ensures Url(OracleConfig(), encode) == "jdbc:oracle:thin:@localhost:1521/test_db"
  {
    var c := OracleConfig();
    assert Protocols.ToString(c.protocol) == "jdbc:oracle:thin:" by {
      Protocols.OracleThinText();
    }
    LocalhostPortText();
    assert SchemaPart(c, encode) == "/" + "test_db";
    UrlFromParts(c, encode, "jdbc:oracle:thin:", "@", "localhost:1521", "/" + "test_db", "");
    OracleText();
  }

  lemma OracleText()
    ensures "jdbc:oracle:thin:" + "@" + "localhost:1521" + ("/" + "test_db") + "" == "jdbc:oracle:thin:@localhost:1521/test_db"
  {
  }

  lemma LocalhostPortText()
    ensures HostsPart(OracleConfig()) == "localhost:1521"
  {
    assert Ports.ToString(1521) == "1521";
    assert Hosts.ToString(Hosts.LocalhostWithPort(Some(1521))) == "localhost:1521";
  }

  /** SQL Server without hosts and with two properties after `;`. */
  method SqlServerProperties(encode: string -> string) returns (url: string)
    requires encode("server_name") == "server_name" && encode("true") == "true"
    ensures url == "jdbc:sqlserver://" + ";servername=server_name" + ";integratedSecurity=true"
  {
    var b := new URLBuilder(Protocols.SqlServer);
    var o := b.SetProtocolSuffix(Some("//"));
    o := b.SetPropertyListPrefixChar(';');
    o := b.SetPropertyDelimiterChar(';');
    SetSqlServerProperties(b);
    url := b.Build(encode);
    SqlServerUrl(encode);
  }

  method SetSqlServerProperties(b: URLBuilder)
    requires b.Valid() && b.State() == SqlServerConfig().(properties := [])
    modifies b
    ensures b.Valid() && b.State() == SqlServerConfig()
  {
    PrintableText("servername");
    PrintableText("server_name");
    PrintableText("integratedSecurity");
    var o := b.SetProperty(Some("servername"), Some("server_name"));
    assert b.properties == [Property("servername", "server_name")];
    o := b.SetBooleanProperty(Some("integratedSecurity"), true);
    assert Put([Property("servername", "server_name")], "integratedSecurity", "true") ==
      [Property("servername", "server_name")] + Put([], "integratedSecurity", "true");
  }

  function SqlServerConfig(): Config {
    Defaults(Protocols.SqlServer).(propertyListPrefix := ";", propertyDelimiter := ";",
      properties := [Property("servername", "server_name"), Property("integratedSecurity", "true")])
  }

  lemma SqlServerUrl(encode: string -> string)
    requires encode("server_name") == "server_name" && encode("true") == "true"
    ensures Url(SqlServerConfig(), encode) == "jdbc:sqlserver://" + ";servername=server_name" + ";integratedSecurity=true"
  {
    var c := SqlServerConfig();
    var pr := ";" + ("servername=server_name" + ";" + "integratedSecurity=true");
    SqlServerPropertiesPart(encode);
    assert Protocols.ToString(c.protocol) == "jdbc:sqlserver:" by {
      Protocols.SqlServerText();
    }
    UrlFromParts(c, encode, "jdbc:sqlserver:", "//", "", "", pr);
    SqlServerText();
  }

  lemma SqlServerPropertiesPart(encode: string -> string)
    requires encode("server_name") == "server_name" && encode("true") == "true"
    ensures PropertiesPart(SqlServerConfig(), encode) == ";" + ("servername=server_name" + ";" + "integratedSecurity=true")
  {
    var texts := PropertyTexts(SqlServerConfig().properties, encode);
    assert texts[0] == "servername=server_name";
    assert texts[1] == "integratedSecurity=true";
    assert texts[1..] == ["integratedSecurity=true"];
    assert Join(texts, ";") == texts[0] + ";" + Join(texts[1..], ";");
  }

  lemma SqlServerText()
    ensures "jdbc:sqlserver:" + "//" + "" + "" + (";" + ("servername=server_name" + ";" + "integratedSecurity=true")) ==
      "jdbc:sqlserver://" + ";servername=server_name" + ";integratedSecurity=true"
  {
    var head, a, b := "jdbc:sqlserver:" + "//" + "" + "", "servername=server_name", "integratedSecurity=true";
    assert head == "jdbc:sqlserver://";
    assert ";" + a == ";servername=server_name" && ";" + b == ";integratedSecurity=true";
    AppendAssoc(";", a + ";", b);
    AppendAssoc(";", a, ";");
    AppendAssoc(";" + a, ";", b);
    AppendAssoc(head, ";" + a, ";" + b);
  }

  /** Redshift with two hosts added at once, a schema and one property after
      `?`. */
  method RedshiftHosts(encode: string -> string) returns (url: string)
    requires encode("MyBusiness") == "MyBusiness" && encode("false") == "false"
    ensures url == "jdbc:redshift://" + "example.org,example.com" + "/MyBusiness?ssl=false"
  {
    var b := new URLBuilder(Protocols.Redshift);
    var o := b.SetProtocolSuffix(Some("//"));
    AddRedshiftHosts(b);
    SetRedshiftOptions(b);
    url := b.Build(encode);
    RedshiftUrl(encode);
  }

  method AddRedshiftHosts(b: URLBuilder)
    requires b.Valid() && b.State() == Defaults(Protocols.Redshift)
    modifies b
    ensures b.Valid() && b.State() == Defaults(Protocols.Redshift).(hosts := RedshiftConfig().hosts)
  {
    var org: Hosts.Host := Hosts.Record("example.org", None);
    var com: Hosts.Host := Hosts.Record("example.com", None);
    TwoHosts(org, com);
    var o := b.AddHosts(Some([Some(org), Some(com)]));
  }

  method SetRedshiftOptions(b: URLBuilder)
    requires b.Valid() && b.State() == Defaults(Protocols.Redshift).(hosts := RedshiftConfig().hosts)
    modifies b
    ensures b.Valid() && b.State() == RedshiftConfig()
  {
    assert !IsJavaWhitespace("MyBusiness"[0]);
    var o := b.SetSchemaName(Some("MyBusiness"));
    o := b.SetPropertyListPrefixChar('?');
    o := b.SetPropertyDelimiterChar('?');
    o := b.SetBooleanProperty(Some("ssl"), false);
  }

  lemma TwoHosts(a: Hosts.Host, b: Hosts.Host)
    ensures NullIndex([Some(a), Some(b)]) == 2
    ensures [Some(a), Some(b)][..2] == [Some(a), Some(b)] && Values([Some(a), Some(b)]) == [a, b]
  {
    assert [Some(a), Some(b)][1..] == [Some(b)];
    assert [Some(b)][1..] == [];
  }

  function RedshiftConfig(): Config {
    Defaults(Protocols.Redshift).(hosts := [Hosts.Record("example.org", None), Hosts.Record("example.com", None)],
      schemaName := Some("MyBusiness"), propertyDelimiter := "?", properties := [Property("ssl", "false")])
  }

  lemma RedshiftUrl(encode: string -> string)
    requires encode("MyBusiness") == "MyBusiness" && encode("false") == "false"
    ensures Url(RedshiftConfig(), encode) == "jdbc:redshift://" + "example.org,example.com" + "/MyBusiness?ssl=false"
  {
    var c := RedshiftConfig();
    assert Protocols.ToString(c.protocol) == "jdbc:redshift:" by {
      Protocols.RedshiftText();
    }
    RedshiftHostsPart();
    RedshiftPropertiesPart(encode);
    UrlFromParts(c, encode, "jdbc:redshift:", "//", "example.org" + "," + "example.com", "/MyBusiness", "?ssl=false");
    RedshiftText();
  }

  lemma RedshiftHostsPart()
    ensures HostsPart(RedshiftConfig()) == "example.org" + "," + "example.com"
  {
    var texts := HostTexts(RedshiftConfig().hosts);
    assert texts[0] == "example.org" && texts[1] == "example.com";
    assert texts[1..] == ["example.com"];
  }

  lemma RedshiftPropertiesPart(encode: string -> string)
    requires encode("false") == "false"
    ensures PropertiesPart(RedshiftConfig(), encode) == "?ssl=false"
  {
    assert PropertyTexts(RedshiftConfig().properties, encode)[0] == "ssl=false";
  }

  lemma RedshiftText()
    ensures "jdbc:redshift:" + "//" + ("example.org" + "," + "example.com") + "/MyBusiness" + "?ssl=false" ==
      "jdbc:redshift://" + "example.org,example.com" + "/MyBusiness?ssl=false"
  {
  }
}
