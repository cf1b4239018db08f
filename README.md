# ezdbc in Dafny

A model of the two string-producing parts of the ezdbc library, with proofs
of what they produce.

- **SQL rendering.** `AbstractLiteral` renders a typed constant, quoted or
  not, or `NULL`. `LogicalOperator` is the table of nine operator tokens.
  Four statement classes hold a table, an optional condition or filter and,
  for insertion and update, an ordered column-to-literal mapping:
  `SelectionQuery`, `InsertionQuery`, `UpdateQuery` and `DeletionQuery`.
  Each renders one `SELECT`, `INSERT`, `UPDATE` or `DELETE` statement.
- **JDBC URL assembly.** `Port` is a range-checked port number with a
  decimal text form. `Host` is a whitespace-free name with an optional port,
  and `Host.parse` splits text at its first `:`. `Protocol` is the table of
  `jdbc:…:` prefixes. `URLBuilder` is a mutable builder whose setters
  validate their input and whose `build` joins protocol, suffix, hosts,
  schema and properties.

Modules:

| file | module | models |
|---|---|---|
| wrappers.dfy | `Wrappers` | `null` as `Option`; a throwing call as `Result` or `Outcome` |
| text.dfy | `Text` | `Collectors.joining` and `StringJoiner`; `indexOf`; Guava `CharMatcher.whitespace()`; `String.isBlank`; `Integer.toString` and `Integer.parseInt` |
| literals.dfy | `Literals` | `AbstractLiteral` |
| operators.dfy | `Operators` | `LogicalOperator` |
| clauses.dfy | `Clauses` | the optional `WHERE` clause the statements share |
| selection.dfy, insertion.dfy, update.dfy, deletion.dfy | `Selection`, `Insertion`, `Update`, `Deletion` | the four query classes |
| ports.dfy, hosts.dfy, protocols.dfy | `Ports`, `Hosts`, `Protocols` | `Port`, `Host`, `Protocol` |
| urls.dfy | `Urls` | `URLBuilder` |

Design:

- **Pure code becomes values and functions.** `Port`, `Host`, `Protocol`,
  literals and operators are values. `Port` is a `newtype` over 0..65535,
  so every port holds a value the constructor accepts. `Host` is a subset
  type of records whose name is non-empty and free of whitespace. A
  constructor that can throw is a function returning `Result`.
- **Mutable objects become classes.** Each query class and `URLBuilder` is
  a `class` whose setters are methods with `modifies this`. A setter that
  can throw returns an `Outcome` and leaves the state unchanged on
  failure. A constructor that rejects `null` is a module-level `New`
  method returning `Result` of the class.
- **How the specifications are stated.** Each statement's text is specified
  as a list of clauses joined by single spaces, and proved equal to the
  source's `StringBuilder` appends. `URLBuilder.build` is a method
  proved equal to the pure function `Url` of the builder's seven fields.
  Every setter states its whole new configuration as an update of the old
  one, and keeps the invariant `Valid`: the checks every reachable state
  passes.
- **The code wins over the Javadoc.** On the "whitespace" versus "blank"
  question, the model follows the code. The Javadoc of `setProtocolSuffix`,
  `setPropertyListPrefix`, `setPropertyDelimiter` and `setProperty`'s name
  describes "blank" checks. The code calls `validateNoWhitespaceOrEmpty`,
  which rejects any whitespace character anywhere, and the comment at
  `URLBuilder.java:53-55` admits this. `setSchemaName` and `setProperty`'s
  value use `String.isBlank`, so `"online orders"` passes.
- **Two whitespace definitions.** Guava's `CharMatcher.whitespace()` and
  Java's `Character.isWhitespace` (used by `isBlank`) are written out
  character by character. They differ: U+00A0 is whitespace only for
  Guava, and U+001C..U+001F only for Java. `Text.WhitespaceDefinitions`
  and `Text.BlankAndWhitespaceChecksDiffer` state both facts.
- **Collaborators are given as text.** `Identifier`, `Expression`,
  `Selectable`, `getTableName` and the concrete literal kinds are not part
  of this model. Each appears as the text its own `toSQLString` returns. A
  literal kind's `toSQLStringImpl` is a function parameter.
- **Maps are ordered sequences.** An insertion or update mapping is a
  sequence of entries in the map's iteration order. The `properties`
  `LinkedHashMap` is a sequence of pairs with `Put` (replace in place, or
  append) and `Get`.
- **`URLEncoder.encode` is a parameter of `build`.** The examples constrain
  it only on the strings they use.

## Model

Paths are relative to the repository root.

| member | source | states |
|---|---|---|
| Literals.ToSQLString | src/main/java/ru/spbstu/edu/ezdbc/sql/expr/literal/AbstractLiteral.java:54-61 | a null value renders `NULL`; a quoted literal is the raw text between two `'`, exactly 2 longer than the raw text; an unquoted literal is the raw text itself |
| Literals.NullIgnoresQuotesAndConversion | src/main/java/ru/spbstu/edu/ezdbc/sql/expr/literal/AbstractLiteral.java:55-57 | a null literal renders `NULL` whatever its quoting flag and whatever conversion its kind has |
| Literals.QuoteIsNotEscaped | src/main/java/ru/spbstu/edu/ezdbc/sql/expr/literal/AbstractLiteral.java:59-60 | `O'Brien` quoted renders `'O'Brien'`; the inner quote is not doubled |
| Literals.Erase | src/main/java/ru/spbstu/edu/ezdbc/sql/expr/literal/AbstractLiteral.java:35-49 | replacing the value by its text keeps the quoting flag and whether the value is null |
| Literals.EraseKeepsRendering | src/main/java/ru/spbstu/edu/ezdbc/sql/expr/literal/AbstractLiteral.java:59-65 | a literal whose value is replaced by its kind's text still renders the same |
| Operators.ToSQLString | src/main/java/ru/spbstu/edu/ezdbc/sql/expr/op/LogicalOperator.java:66-69 | every operator's token is non-empty |
| Operators.AllIsComplete | src/main/java/ru/spbstu/edu/ezdbc/sql/expr/op/LogicalOperator.java:31-39 | the table has nine entries and lists every operator |
| Operators.Arity | src/main/java/ru/spbstu/edu/ezdbc/sql/expr/op/LogicalOperator.java:54-64 | `isUnary` holds exactly for `NOT`; `isBinary` is its complement |
| Operators.TokensAreDistinct | src/main/java/ru/spbstu/edu/ezdbc/sql/expr/op/LogicalOperator.java:31-39 | two operators with the same token are the same operator |
| Clauses.JoinWhere | src/main/java/ru/spbstu/edu/ezdbc/sql/query/SelectionQuery.java:91-94 | appending the `WHERE` clause adds ` WHERE ` and the condition when there is one, and nothing otherwise |
| Clauses.WhereDetermines | src/main/java/ru/spbstu/edu/ezdbc/sql/query/DeletionQuery.java:67-70 | two texts with the same prefix are equal exactly when their conditions are equal |
| Selection.StatementShape | src/main/java/ru/spbstu/edu/ezdbc/sql/query/SelectionQuery.java:86-96 | without a filter the text is exactly `SELECT <cols> FROM <table>`; with one, ` WHERE <filter>` follows |
| Selection.ColumnsCases | src/main/java/ru/spbstu/edu/ezdbc/sql/query/SelectionQuery.java:82-84 | null and empty selections both give `SELECT * FROM <table>`; non-empty ones are joined by `, `; a single item appears alone |
| Selection.FilterDetermined | src/main/java/ru/spbstu/edu/ezdbc/sql/query/SelectionQuery.java:91-94 | for the same table and selections, two statements are equal exactly when their filters are equal |
| Selection.Example | src/main/java/ru/spbstu/edu/ezdbc/sql/query/SelectionQuery.java:80-97 | selections `id`, `name` on `users` with filter `age > 18` render `SELECT id, name FROM users WHERE age > 18` |
| Selection.SelectionQuery.constructor | src/main/java/ru/spbstu/edu/ezdbc/sql/query/SelectionQuery.java:54-58 | a new query has its table, null selections and no filter |
| Selection.SelectionQuery.SetSelections | src/main/java/ru/spbstu/edu/ezdbc/sql/query/SelectionQuery.java:64-66 | the selections become the argument (null allowed); the filter is unchanged |
| Selection.SelectionQuery.SetSelectionItems | src/main/java/ru/spbstu/edu/ezdbc/sql/query/SelectionQuery.java:68-70 | the varargs form sets the same list, in the same order, as the list form |
| Selection.SelectionQuery.SetFilter | src/main/java/ru/spbstu/edu/ezdbc/sql/query/SelectionQuery.java:76-78 | the filter becomes the argument; the selections are unchanged |
| Selection.SelectionQuery.ToSQLString | src/main/java/ru/spbstu/edu/ezdbc/sql/query/SelectionQuery.java:80-97 | the appends give the clause-list statement of the current fields |
| Selection.RenderAfterSetFilter | src/main/java/ru/spbstu/edu/ezdbc/sql/query/SelectionQuery.java:54-97 | a fresh query renders `SELECT * FROM <table>`; after `setFilter(f)` it renders that text followed by ` WHERE f` |
| Insertion.Pack | src/main/java/ru/spbstu/edu/ezdbc/sql/query/InsertionQuery.java:72-76 | the text starts with `(`, ends with `)`, and between them holds the items joined by `, ` |
| Insertion.PackOne | src/main/java/ru/spbstu/edu/ezdbc/sql/query/InsertionQuery.java:72-76 | one item `x` packs as `(x)` |
| Insertion.StatementShape | src/main/java/ru/spbstu/edu/ezdbc/sql/query/InsertionQuery.java:60-68 | rendering fails, with `IllegalStateException`, exactly on an empty mapping; otherwise the text is `INSERT INTO <table> (<cols>) VALUES (<vals>)` |
| Insertion.ColumnsMatchValues | src/main/java/ru/spbstu/edu/ezdbc/sql/query/InsertionQuery.java:65-66 | column and value lists are as long as the mapping, and the i-th of each comes from the i-th entry |
| Insertion.Example | src/main/java/ru/spbstu/edu/ezdbc/sql/query/InsertionQuery.java:59-68 | `{id: 1, name: 'a'}` into `T` renders `INSERT INTO T (id, name) VALUES (1, 'a')` |
| Insertion.InsertionQuery.constructor | src/main/java/ru/spbstu/edu/ezdbc/sql/query/InsertionQuery.java:46-49 | a non-null mapping, empty or not, is kept as given |
| Insertion.InsertionQuery.SetInsertionMappings | src/main/java/ru/spbstu/edu/ezdbc/sql/query/InsertionQuery.java:55-57 | null fails with `NullPointerException` and changes nothing; any other mapping replaces the old one |
| Insertion.InsertionQuery.ToSQLString | src/main/java/ru/spbstu/edu/ezdbc/sql/query/InsertionQuery.java:59-68 | the `String.format` form equals the clause-list statement, error case included |
| Insertion.New | src/main/java/ru/spbstu/edu/ezdbc/sql/query/InsertionQuery.java:41-49 | a null mapping makes construction fail with `NullPointerException`; any other mapping gives a fresh query holding it |
| Insertion.EmptyMappingFailsAtRender | src/main/java/ru/spbstu/edu/ezdbc/sql/query/InsertionQuery.java:61-63 | an empty mapping is accepted at construction and rendering then fails with `IllegalStateException` |
| Update.StatementShape | src/main/java/ru/spbstu/edu/ezdbc/sql/query/UpdateQuery.java:78-104 | rendering fails, with `IllegalStateException`, exactly on an empty mapping; otherwise `UPDATE <table> SET <pairs>`, then ` WHERE <condition>` exactly when there is one |
| Update.ConditionDetermined | src/main/java/ru/spbstu/edu/ezdbc/sql/query/UpdateQuery.java:98-101 | with a non-empty mapping, two conditions give the same text exactly when they are equal |
| Update.ExampleAssignments | src/main/java/ru/spbstu/edu/ezdbc/sql/query/UpdateQuery.java:88-95 | `{id: 1, name: 'a'}` gives the pairs `id=1, name='a'`, with no spaces around `=` |
| Update.Example | src/main/java/ru/spbstu/edu/ezdbc/sql/query/UpdateQuery.java:78-104 | the same mapping on `T` with condition `age > 18` renders `UPDATE T SET id=1, name='a' WHERE age > 18` |
| Update.UpdateQuery.constructor | src/main/java/ru/spbstu/edu/ezdbc/sql/query/UpdateQuery.java:52-56 | the table, a non-null mapping and the condition are kept as given |
| Update.UpdateQuery.SetUpdateMappings | src/main/java/ru/spbstu/edu/ezdbc/sql/query/UpdateQuery.java:66-68 | null fails with `NullPointerException` and changes nothing; any other mapping replaces the old one; the condition is unchanged |
| Update.UpdateQuery.SetCondition | src/main/java/ru/spbstu/edu/ezdbc/sql/query/UpdateQuery.java:74-76 | the condition becomes the argument (null removes it); the mapping is unchanged |
| Update.UpdateQuery.ToSQLString | src/main/java/ru/spbstu/edu/ezdbc/sql/query/UpdateQuery.java:78-104 | the appends equal the clause-list statement, error case included |
| Update.New | src/main/java/ru/spbstu/edu/ezdbc/sql/query/UpdateQuery.java:42-56 | a null mapping makes construction fail with `NullPointerException`; otherwise a fresh query holds table, mapping and condition |
| Update.NewWithoutCondition | src/main/java/ru/spbstu/edu/ezdbc/sql/query/UpdateQuery.java:58-60 | the two-argument constructors give a query with no condition |
| Deletion.StatementShape | src/main/java/ru/spbstu/edu/ezdbc/sql/query/DeletionQuery.java:62-73 | without a condition the text is exactly `DELETE FROM <table>`; with one, ` WHERE <condition>` follows; rendering never fails |
| Deletion.ConditionDetermined | src/main/java/ru/spbstu/edu/ezdbc/sql/query/DeletionQuery.java:67-70 | on the same table, two conditions give the same text exactly when they are equal |
| Deletion.Example | src/main/java/ru/spbstu/edu/ezdbc/sql/query/DeletionQuery.java:62-73 | table `T` renders `DELETE FROM T`, and `DELETE FROM T WHERE age > 18` with that condition |
| Deletion.DeletionQuery.constructor | src/main/java/ru/spbstu/edu/ezdbc/sql/query/DeletionQuery.java:50-52 | the one-argument constructors set no condition |
| Deletion.DeletionQuery.WithCondition | src/main/java/ru/spbstu/edu/ezdbc/sql/query/DeletionQuery.java:45-48 | the two-argument constructors keep the table and the condition |
| Deletion.DeletionQuery.SetCondition | src/main/java/ru/spbstu/edu/ezdbc/sql/query/DeletionQuery.java:58-60 | the condition becomes the argument: the last write wins |
| Deletion.DeletionQuery.ToSQLString | src/main/java/ru/spbstu/edu/ezdbc/sql/query/DeletionQuery.java:62-73 | the appends equal the clause-list statement |
| Ports.Of | src/main/java/ru/spbstu/edu/ezdbc/url/Port.java:40-44 | construction succeeds exactly for 0..65535 and keeps the value; otherwise it fails with `IllegalArgumentException` |
| Ports.ToString | src/main/java/ru/spbstu/edu/ezdbc/url/Port.java:53-56 | the text is non-empty ASCII digits denoting the value, with no leading zero other than `0` itself |
| Ports.Parse | src/main/java/ru/spbstu/edu/ezdbc/url/Port.java:46-51 | null fails with `NullPointerException`; every other failure is an `IllegalArgumentException` (or its subclass `NumberFormatException`); success exactly when `parseInt` succeeds within the range, and then the port's value is the parsed number |
| Ports.CompareTo | src/main/java/ru/spbstu/edu/ezdbc/url/Port.java:58-62 | the result is -1, 0 or 1, and its sign is the order of the two values |
| Ports.ParseToString | src/main/java/ru/spbstu/edu/ezdbc/url/Port.java:46-56 | parsing a port's text gives the same port |
| Ports.ToStringInjective | src/main/java/ru/spbstu/edu/ezdbc/url/Port.java:53-56 | two ports have the same text exactly when they are equal |
| Ports.CompareToOrder | src/main/java/ru/spbstu/edu/ezdbc/url/Port.java:58-62 | `compareTo` is antisymmetric and transitive |
| Ports.MinMaxBounds | src/main/java/ru/spbstu/edu/ezdbc/url/Port.java:33-38 | `MIN` (0) and `MAX` (65535) are the least and greatest ports |
| Ports.ConstructionExamples | src/test/java/ru/spbstu/edu/ezdbc/url/PortTests.java:54-64 | -1, 65536, `Integer.MIN_VALUE` and `Integer.MAX_VALUE` are rejected; 0, 1024, 49152, 65535, 3306, 1433, 1521 and 5432 are accepted |
| Ports.ToStringMin | src/test/java/ru/spbstu/edu/ezdbc/url/PortTests.java:81 | port 0 reads `0` |
| Ports.ToStringMax | src/test/java/ru/spbstu/edu/ezdbc/url/PortTests.java:87 | port 65535 reads `65535` |
| Ports.ParseRejects | src/test/java/ru/spbstu/edu/ezdbc/url/PortTests.java:101-106 | empty text, `Twenty One`, `Twenty 1`, `-21` and `65536` are rejected; the last two by the range check |
| Ports.ParseAccepts | src/test/java/ru/spbstu/edu/ezdbc/url/PortTests.java:109-113 | `3306` parses to port 3306 |
| Ports.ParseAcceptsSign | src/main/java/ru/spbstu/edu/ezdbc/url/Port.java:49 | `+80` parses to port 80, a text `toString` never produces |
| Ports.ParseAcceptsLeadingZeros | src/main/java/ru/spbstu/edu/ezdbc/url/Port.java:49 | `0080` parses to port 80 |
| Text.ParseInt | src/main/java/ru/spbstu/edu/ezdbc/url/Port.java:49 | `Integer.parseInt`: every failure is a `NumberFormatException`; a text parses exactly when it is an optional `-` or `+` followed by at least one ASCII digit whose value is at most 2147483648 after `-` and 2147483647 otherwise; a success is a 32-bit value whose magnitude is the digits' value and which is negative only after `-` |
| Text.ParseIntToString | src/main/java/ru/spbstu/edu/ezdbc/url/Port.java:46-56 | `Integer.parseInt(Integer.toString(i)) == i` for every 32-bit `i` |
| Text.ParseIntNegative | src/main/java/ru/spbstu/edu/ezdbc/url/Port.java:46-51 | a text with a leading `-` parses to a value no greater than 0 |
| Text.IndexOf | src/main/java/ru/spbstu/edu/ezdbc/url/Host.java:59-61 | no position exactly when the character is absent; otherwise the first position holding it |
| Text.WhitespaceDefinitions | src/main/java/ru/spbstu/edu/ezdbc/url/URLBuilder.java:449-453 | space, tab and newline are whitespace both for Guava and for Java; U+00A0 only for Guava, U+001C only for Java |
| Text.BlankAndWhitespaceChecksDiffer | src/main/java/ru/spbstu/edu/ezdbc/url/URLBuilder.java:187-193 | `online orders` is not blank but fails the whitespace check; U+001C passes the whitespace check but is blank |
| Hosts.Create | src/main/java/ru/spbstu/edu/ezdbc/url/Host.java:40-50 | a null name fails with `NullPointerException`; a non-null name succeeds exactly when it is non-empty and has no whitespace; otherwise `IllegalArgumentException` |
| Hosts.OfName | src/main/java/ru/spbstu/edu/ezdbc/url/Host.java:52-54 | `new Host(name)`: null fails with `NullPointerException` and an invalid name with `IllegalArgumentException`; it succeeds exactly for a valid name, keeping that name, with no port |
| Hosts.LocalhostWithPort | src/main/java/ru/spbstu/edu/ezdbc/url/Host.java:71-73 | the result is what the constructor gives for `localhost` and that port |
| Hosts.ToString | src/main/java/ru/spbstu/edu/ezdbc/url/Host.java:75-78 | the text starts with the name; it is only the name exactly when there is no port; otherwise `:` and the port's text follow |
| Hosts.Parse | src/main/java/ru/spbstu/edu/ezdbc/url/Host.java:56-69 | null fails with `NullPointerException`; other failures are `IllegalArgumentException`s; without `:` it is the constructor on the whole text; a success with `:` has a port and the `:`-free prefix as its name |
| Hosts.FirstSeparator | src/main/java/ru/spbstu/edu/ezdbc/url/Host.java:59 | in `name:rest` with a `:`-free name, the first `:` is right after the name |
| Hosts.ParseToString | src/main/java/ru/spbstu/edu/ezdbc/url/Host.java:56-78 | a host whose name has no `:` is parsed back from its text |
| Hosts.ColonNameBreaksRoundTrip | src/main/java/ru/spbstu/edu/ezdbc/url/Host.java:59-66 | the valid host `db:primary` prints as `db:primary`, which fails to parse with `NumberFormatException` |
| Hosts.CreateRejects | src/test/java/ru/spbstu/edu/ezdbc/url/HostTests.java:53-63 | null, empty, `Hello World!`, `example . com`, space, tab and newline names are rejected |
| Hosts.ToStringExamples | src/test/java/ru/spbstu/edu/ezdbc/url/HostTests.java:76-80 | `example.com` with port 3306 reads `example.com:3306`; `example.org` without a port reads `example.org` |
| Hosts.ParseSplit | src/main/java/ru/spbstu/edu/ezdbc/url/Host.java:59-68 | for every `:`-free name and every rest, `name:rest` fails with `Port.parse`'s error on the rest, and otherwise is the constructor on the name and the parsed port |
| Hosts.ParseLeadingZeros | src/main/java/ru/spbstu/edu/ezdbc/url/Host.java:65-68 | `db:0080` parses to host `db` with port 80 |
| Hosts.ParseSign | src/main/java/ru/spbstu/edu/ezdbc/url/Host.java:65-68 | `db:+80` parses to host `db` with port 80 |
| Hosts.ParseWithPort | src/main/java/ru/spbstu/edu/ezdbc/url/Host.java:65-68 | `name:digits` parses to that name and port when the name is valid and `:`-free and the digits are the port's text |
| Hosts.ParseName | src/main/java/ru/spbstu/edu/ezdbc/url/Host.java:61-63 | a valid `:`-free text parses to the host with that name and no port |
| Hosts.ParseLocalhost | src/test/java/ru/spbstu/edu/ezdbc/url/HostTests.java:101-104 | `localhost` parses to `LOCALHOST` |
| Hosts.ParseExampleName | src/test/java/ru/spbstu/edu/ezdbc/url/HostTests.java:101-104 | `example.com` parses to that name without a port |
| Hosts.ParseDottedName | src/test/java/ru/spbstu/edu/ezdbc/url/HostTests.java:101-104 | `ruz.spbstu.ru` parses to that name without a port |
| Hosts.ParseLocalhostPortZero | src/test/java/ru/spbstu/edu/ezdbc/url/HostTests.java:101-104 | `localhost:0` parses to the local host with port 0 |
| Hosts.ParseNameWithPort | src/test/java/ru/spbstu/edu/ezdbc/url/HostTests.java:101-104 | `example.org:5432` parses to that name with port 5432 |
| Hosts.ParseNameWithMaxPort | src/test/java/ru/spbstu/edu/ezdbc/url/HostTests.java:101-104 | `spbstu.ru:65535` parses to that name with port `MAX` |
| Hosts.ParseRejectsName | src/test/java/ru/spbstu/edu/ezdbc/url/HostTests.java:87-97 | null, the empty text and a tab are rejected |
| Hosts.ParseWhitespaceName | src/main/java/ru/spbstu/edu/ezdbc/url/Host.java:61-63 | a `:`-free text with a whitespace character is rejected with `IllegalArgumentException` |
| Hosts.ParseRejectsInnerSpace | src/test/java/ru/spbstu/edu/ezdbc/url/HostTests.java:92-97 | `Hello World!` is rejected |
| Hosts.ParseNoNumber | src/main/java/ru/spbstu/edu/ezdbc/url/Host.java:66 | `name:rest` fails with `NumberFormatException` when `rest` is not a number, whatever the name |
| Hosts.ParseRejectsMissingPort | src/test/java/ru/spbstu/edu/ezdbc/url/HostTests.java:92-97 | `example.com:` fails with `NumberFormatException` |
| Hosts.ParseOutOfRange | src/main/java/ru/spbstu/edu/ezdbc/url/Host.java:66-68 | `name:digits` fails with `IllegalArgumentException` when the number is outside the port range, whatever the name |
| Hosts.ParseInvalidName | src/main/java/ru/spbstu/edu/ezdbc/url/Host.java:65-68 | `name:digits` with a valid port but an invalid name fails with `IllegalArgumentException`: the name is checked last |
| Hosts.ParseRejectsPortTooLarge | src/test/java/ru/spbstu/edu/ezdbc/url/HostTests.java:92-97 | `example.org:1287361` is rejected by the range check |
| Hosts.ParseLargeNumber | src/test/java/ru/spbstu/edu/ezdbc/url/HostTests.java:93 | `1287361` is a valid 32-bit number, so that rejection is the port range's |
| Hosts.ParseRejectsNegativePort | src/test/java/ru/spbstu/edu/ezdbc/url/HostTests.java:92-97 | `example.org:-1` is rejected by the range check |
| Hosts.ParseRejectsNameAfterPort | src/test/java/ru/spbstu/edu/ezdbc/url/HostTests.java:92-97 | `Hello World:36` is rejected for its name |
| Hosts.ParseRejectsBlankNameAfterPort | src/test/java/ru/spbstu/edu/ezdbc/url/HostTests.java:92-97 | `\t:123` is rejected for its name |
| Protocols.ToString | src/main/java/ru/spbstu/edu/ezdbc/url/Protocol.java:103-123 | every protocol text starts with `jdbc:` and ends with `:` |
| Protocols.Subcomponents | src/main/java/ru/spbstu/edu/ezdbc/url/Protocol.java:41-95 | every constant has one or two subcomponents |
| Protocols.SubcomponentsWellFormed | src/main/java/ru/spbstu/edu/ezdbc/url/Protocol.java:41-95 | every subcomponent is non-empty and has no `:` |
| Protocols.Shape | src/main/java/ru/spbstu/edu/ezdbc/url/Protocol.java:103-123 | the text is `jdbc:`, the subcomponents joined by `:`, and a final `:`; so it starts with `jdbc:` and ends with `:` |
| Protocols.ColonCount | src/main/java/ru/spbstu/edu/ezdbc/url/Protocol.java:103-112 | the text holds exactly one `:` more than the constant has subcomponents |
| Protocols.JoinedColons | src/main/java/ru/spbstu/edu/ezdbc/url/Protocol.java:103-112 | for any `:`-free subcomponents, the joiner's text holds one `:` per subcomponent plus one |
| Protocols.ToStringTable | src/main/java/ru/spbstu/edu/ezdbc/url/Protocol.java:41-123 | every constant's text is its written-out `jdbc:…:` form |
| Protocols.MySqlText | src/test/java/ru/spbstu/edu/ezdbc/url/ProtocolTests.java:50 | `MYSQL` reads `jdbc:mysql:` |
| Protocols.MySqlLoadBalanceText | src/main/java/ru/spbstu/edu/ezdbc/url/Protocol.java:47 | `MYSQL_LOADBALANCE` reads `jdbc:mysql:loadbalance:` |
| Protocols.MySqlReplicationText | src/main/java/ru/spbstu/edu/ezdbc/url/Protocol.java:53 | `MYSQL_REPLICATION` reads `jdbc:mysql:replication:` |
| Protocols.MySqlSrvText | src/main/java/ru/spbstu/edu/ezdbc/url/Protocol.java:59 | `MYSQL_SRV` reads `jdbc:mysql+srv:` |
| Protocols.MySqlSrvLoadBalanceText | src/main/java/ru/spbstu/edu/ezdbc/url/Protocol.java:65 | `MYSQL_SRV_LOADBALANCE` reads `jdbc:mysql+srv:loadbalance:` |
| Protocols.MySqlSrvReplicationText | src/main/java/ru/spbstu/edu/ezdbc/url/Protocol.java:71 | `MYSQL_SRV_REPLICATION` reads `jdbc:mysql+srv:replication:` |
| Protocols.OracleThinText | src/test/java/ru/spbstu/edu/ezdbc/url/ProtocolTests.java:52 | `ORACLE_THIN` reads `jdbc:oracle:thin:` |
| Protocols.PostgreSqlText | src/test/java/ru/spbstu/edu/ezdbc/url/ProtocolTests.java:51 | `POSTGRESQL` reads `jdbc:postgresql:` |
| Protocols.RedshiftText | src/test/java/ru/spbstu/edu/ezdbc/url/ProtocolTests.java:54 | `REDSHIFT` reads `jdbc:redshift:` |
| Protocols.SqlServerText | src/test/java/ru/spbstu/edu/ezdbc/url/ProtocolTests.java:53 | `SQL_SERVER` reads `jdbc:sqlserver:` |
| Protocols.Single | src/main/java/ru/spbstu/edu/ezdbc/url/Protocol.java:103-112 | a constant with one subcomponent `a` reads `jdbc:a:` |
| Protocols.Double | src/main/java/ru/spbstu/edu/ezdbc/url/Protocol.java:103-112 | a constant with subcomponents `a`, `b` reads `jdbc:a:b:` |
| Protocols.ToStringInjective | src/main/java/ru/spbstu/edu/ezdbc/url/Protocol.java:41-95 | two constants have the same text exactly when they are the same constant |
| Protocols.AllIsComplete | src/main/java/ru/spbstu/edu/ezdbc/url/Protocol.java:41-95 | the table has ten entries and lists every constant |
| Urls.GetNames | src/main/java/ru/spbstu/edu/ezdbc/url/URLBuilder.java:88 | the map holds a value for a key exactly when the key is among its names |
| Urls.Put | src/main/java/ru/spbstu/edu/ezdbc/url/URLBuilder.java:242 | `LinkedHashMap.put`: the new pair is in the result, which grows by one exactly when the key was absent |
| Urls.PutGet | src/main/java/ru/spbstu/edu/ezdbc/url/URLBuilder.java:242 | after `put`, the key holds the new value |
| Urls.PutGetOther | src/main/java/ru/spbstu/edu/ezdbc/url/URLBuilder.java:242 | `put` leaves every other key's value as it was |
| Urls.PutNames | src/main/java/ru/spbstu/edu/ezdbc/url/URLBuilder.java:242 | `put` of an existing key keeps the key order; a new key goes to the end |
| Urls.NamesLength | src/main/java/ru/spbstu/edu/ezdbc/url/URLBuilder.java:88 | the key list has one name per entry, in entry order |
| Urls.PutDistinct | src/main/java/ru/spbstu/edu/ezdbc/url/URLBuilder.java:242 | `put` keeps the keys distinct |
| Urls.PutAppends | src/main/java/ru/spbstu/edu/ezdbc/url/URLBuilder.java:242 | `put` of a new key appends the pair |
| Urls.PutKeepsOthers | src/main/java/ru/spbstu/edu/ezdbc/url/URLBuilder.java:242 | `put` of an existing key keeps the length and every entry under another key |
| Urls.PutValid | src/main/java/ru/spbstu/edu/ezdbc/url/URLBuilder.java:233-244 | `put` of a checked pair keeps every stored pair checked |
| Urls.Defaults | src/main/java/ru/spbstu/edu/ezdbc/url/URLBuilder.java:80-90 | the defaults (suffix `//`, no hosts, no schema, prefix `?`, no properties, delimiter `&`) pass every setter check |
| Urls.Url | src/main/java/ru/spbstu/edu/ezdbc/url/URLBuilder.java:407-443 | the text `build` assembles starts with the protocol's text |
| Urls.UrlStartsWithProtocol | src/main/java/ru/spbstu/edu/ezdbc/url/URLBuilder.java:407-411 | every URL starts with `jdbc:`, whatever the protocol |
| Urls.SchemaSlash | src/main/java/ru/spbstu/edu/ezdbc/url/URLBuilder.java:424-431 | the encoded schema follows a `/` when there are hosts and follows the hosts part directly otherwise |
| Urls.NoPropertiesNoPrefix | src/main/java/ru/spbstu/edu/ezdbc/url/URLBuilder.java:433-440 | without properties, prefix and delimiter do not show, and changing them leaves the URL unchanged |
| Urls.AddHostExtendsHosts | src/main/java/ru/spbstu/edu/ezdbc/url/URLBuilder.java:417-422 | one more host is the whole hosts part for the first host, else `,` and its text after the old part |
| Urls.NewPropertyExtendsProperties | src/main/java/ru/spbstu/edu/ezdbc/url/URLBuilder.java:433-440 | a new property starts the part with the prefix, or follows the old part after the delimiter |
| Urls.ReplacePropertyKeepsPosition | src/main/java/ru/spbstu/edu/ezdbc/url/URLBuilder.java:242 | setting an existing name keeps the number of pairs and the text of every other pair |
| Urls.NullIndex | src/main/java/ru/spbstu/edu/ezdbc/url/URLBuilder.java:171-177 | the position of the first null element, or the length when there is none |
| Urls.DecimalIsNotBlank | src/main/java/ru/spbstu/edu/ezdbc/url/URLBuilder.java:290-292 | an integer's decimal text is never blank, so the integer forms of `setProperty` never fail for the value |
| Urls.New | src/main/java/ru/spbstu/edu/ezdbc/url/URLBuilder.java:80-90 | a null protocol fails with `NullPointerException`; otherwise a fresh builder holds the defaults |
| Urls.URLBuilder.constructor | src/main/java/ru/spbstu/edu/ezdbc/url/URLBuilder.java:80-90 | a new builder holds the defaults and is valid |
| Urls.URLBuilder.SetProtocol | src/main/java/ru/spbstu/edu/ezdbc/url/URLBuilder.java:99-102 | null fails with `NullPointerException` and changes nothing; otherwise only the protocol changes |
| Urls.URLBuilder.SetProtocolSuffix | src/main/java/ru/spbstu/edu/ezdbc/url/URLBuilder.java:115-121 | null removes the suffix; an empty suffix or one with any whitespace fails and changes nothing; otherwise only the suffix changes |
| Urls.URLBuilder.SetProtocolSuffixChar | src/main/java/ru/spbstu/edu/ezdbc/url/URLBuilder.java:130-132 | a whitespace character fails and changes nothing; any other becomes the one-character suffix |
| Urls.URLBuilder.AddHost | src/main/java/ru/spbstu/edu/ezdbc/url/URLBuilder.java:141-145 | null fails with `NullPointerException` and changes nothing; a host is appended |
| Urls.URLBuilder.AddHosts | src/main/java/ru/spbstu/edu/ezdbc/url/URLBuilder.java:156-177 | a null collection fails and adds nothing; otherwise the hosts before the first null element are appended in order, and the call fails exactly when there is a null element |
| Urls.URLBuilder.SetSchemaName | src/main/java/ru/spbstu/edu/ezdbc/url/URLBuilder.java:187-193 | null removes the schema; a blank name fails and changes nothing; any other name, inner spaces allowed, becomes the schema |
| Urls.URLBuilder.SetPropertyListPrefix | src/main/java/ru/spbstu/edu/ezdbc/url/URLBuilder.java:205-210 | null fails with `NullPointerException`; an empty prefix or one with whitespace with `IllegalArgumentException`; both change nothing; otherwise only the prefix changes |
| Urls.URLBuilder.SetPropertyListPrefixChar | src/main/java/ru/spbstu/edu/ezdbc/url/URLBuilder.java:219-221 | a whitespace character fails and changes nothing; any other becomes the one-character prefix |
| Urls.URLBuilder.SetProperty | src/main/java/ru/spbstu/edu/ezdbc/url/URLBuilder.java:233-244 | checks in order: null name, invalid name, null value, blank value, each failing without change; otherwise the pair is put into the ordered map |
| Urls.URLBuilder.SetIntegerProperty | src/main/java/ru/spbstu/edu/ezdbc/url/URLBuilder.java:258-308 | null name fails with `NullPointerException` and an invalid name with `IllegalArgumentException`, the state unchanged; succeeds exactly for a valid name and then puts the value's decimal text |
| Urls.URLBuilder.SetBooleanProperty | src/main/java/ru/spbstu/edu/ezdbc/url/URLBuilder.java:354-356 | null name fails with `NullPointerException` and an invalid name with `IllegalArgumentException`, the state unchanged; succeeds exactly for a valid name and then puts `true` or `false` |
| Urls.URLBuilder.SetCharProperty | src/main/java/ru/spbstu/edu/ezdbc/url/URLBuilder.java:370-372 | null name fails with `NullPointerException`, an invalid name or a Java-whitespace character with `IllegalArgumentException`, the state unchanged; succeeds exactly for a valid name and a non-whitespace character, and then puts the one-character text |
| Urls.URLBuilder.SetPropertyDelimiter | src/main/java/ru/spbstu/edu/ezdbc/url/URLBuilder.java:382-388 | null fails with `NullPointerException`; an empty delimiter or one with whitespace with `IllegalArgumentException`; both change nothing; otherwise only the delimiter changes |
| Urls.URLBuilder.SetPropertyDelimiterChar | src/main/java/ru/spbstu/edu/ezdbc/url/URLBuilder.java:397-399 | a whitespace character fails and changes nothing; any other becomes the one-character delimiter |
| Urls.URLBuilder.Build | src/main/java/ru/spbstu/edu/ezdbc/url/URLBuilder.java:407-443 | the appended text is the URL of the current configuration: protocol, suffix, hosts joined by `,`, the schema part, the properties part |
| Urls.MySqlLocalhost | src/test/java/ru/spbstu/edu/ezdbc/url/URLBuilderTests.java:243-248 | MySQL, suffix `//`, the local host and schema `sakila` build `jdbc:mysql://localhost/sakila` |
| Urls.PostgreSqlSchemaOnly | src/test/java/ru/spbstu/edu/ezdbc/url/URLBuilderTests.java:250-254 | PostgreSQL without suffix or hosts and with schema `test_db` builds `jdbc:postgresql:test_db` |
| Urls.OracleThinWithPort | src/test/java/ru/spbstu/edu/ezdbc/url/URLBuilderTests.java:256-261 | Oracle with suffix `@`, `localhost:1521` and schema `test_db` builds `jdbc:oracle:thin:@localhost:1521/test_db` |
| Urls.OracleUrl | src/test/java/ru/spbstu/edu/ezdbc/url/URLBuilderTests.java:256-261 | the URL of that configuration |
| Urls.SqlServerProperties | src/test/java/ru/spbstu/edu/ezdbc/url/URLBuilderTests.java:263-270 | SQL Server with `;` as prefix and delimiter and two properties builds `jdbc:sqlserver://;servername=server_name;integratedSecurity=true` |
| Urls.SqlServerUrl | src/test/java/ru/spbstu/edu/ezdbc/url/URLBuilderTests.java:263-270 | the URL of that configuration |
| Urls.RedshiftHosts | src/test/java/ru/spbstu/edu/ezdbc/url/URLBuilderTests.java:272-280 | Redshift with two hosts added at once, schema `MyBusiness` and `ssl=false` builds `jdbc:redshift://example.org,example.com/MyBusiness?ssl=false` |
| Urls.RedshiftUrl | src/test/java/ru/spbstu/edu/ezdbc/url/URLBuilderTests.java:272-280 | the URL of that configuration |

## Left out

- `SelectionQuery.execute` and the modification queries' `execute`: calls into JDBC `Statement` and `Connection`.
- `ResultSetConsumer`, `PerRowResultSetConsumer`, `ResultSetPrinter`, `EZDBCDemo` and `JDBCDemo`: cursor iteration, console output and `main` programs.
- `URLBuilder.setProperty(String, float)` and `(String, double)`: Java's floating-point `toString` format is not modelled.
- `URLBuilder.encode`: a call into `URLEncoder`; `build` takes it as a parameter, and the examples state only the values they need.
- `URLBuilder.equals`, `hashCode` and `toString`, and the `// TODO` `equals`/`hashCode`/`toString` of the query classes.
- `Identifier`, `Expression`, `Selectable`, `AbstractSQLQuery`, `AbstractModificationQuery` and the concrete literal kinds are not part of this model: each appears as the text it renders to, so no claim is made about their own checks or parenthesising.
- `Integer.parseInt`: only an optional sign and ASCII digits are modelled; non-ASCII Unicode digits, which Java also accepts, are not.
- Exception messages are not modelled; only the exception classes are.
- `Urls.URLBuilder.AddHosts`: the `Iterable` and the varargs overloads are one method over a sequence; an `Iterable` whose iteration itself throws is not modelled.
- `Urls.URLBuilder.SetIntegerProperty`: the `byte`, `short`, `int` and `long` overloads are one method over unbounded integers; the narrower widths only restrict which values can be passed.
- Method chaining: each setter's returned `this` is not modelled; the outcome of each call is an `Outcome` value and the builder is the object itself.
- `Insertion` and `Update` mappings: a `Map` has distinct keys, but neither statement depends on it, so the mapping sequence does not require it; null map entries are not modelled.
- `Insertion.InsertionQuery.SetInsertionMappings`, `Insertion.New`, `Update.UpdateQuery.SetUpdateMappings` and `Update.New` (and the two classes' constructors): the query keeps the caller's `Map` by reference, and `getInsertionMappings`/`getUpdateMappings` hand that same object back, so later changes to the map change the rendered text; in particular an empty map filled after construction renders as an INSERT or UPDATE rather than failing with `IllegalStateException`. The model copies the mapping at the call, so a query renders the mapping it was given.
- `Selection.SelectionQuery.SetSelections` and `Selection.SelectionQuery.SetSelectionItems`: the query keeps the caller's list by reference, and the varargs form keeps an `Arrays.asList` view of the caller's array, so later changes to that list or array change the rendered text; the model copies the sequence at the call. A null varargs array (`NullPointerException` from `Arrays.asList`) and null elements in the list (a `NullPointerException` when `toSQLString` renders them) are not modelled: an element is the text it renders to.
- `Ports.CompareTo`: `compareTo(null)` throws `NullPointerException`; a port argument here is never null.
- Java `char` is a UTF-16 code unit; here a character is a Unicode scalar value, so unpaired surrogates are not modelled.
- `Host.LOCALHOST` and the `parse` comment about returning it: records compare by value, so returning a new equal record is indistinguishable and is what the model does.
