/** `InsertionQuery`:
    `INSERT INTO <table> (<col1>, <col2>, ...) VALUES (<val1>, <val2>, ...)`.
    The mapping may not be null but may be empty until rendering, which
    then fails. */
module Insertion {
  import opened Wrappers
  import opened Text
  import opened Literals
  import opened Clauses

  /** The mapping's key texts in iteration order (`keySet()`). */
  function ColumnTexts(m: Mapping): seq<string> {
    seq(|m|, i requires 0 <= i < |m| => m[i].column)
  }

  /** The mapping's rendered values in iteration order (`values()`). */
  function ValueTexts(m: Mapping): seq<string> {
    seq(|m|, i requires 0 <= i < |m| => Render(m[i].value))
  }

  /** `pack`: the items joined by `, ` inside one pair of parentheses. */
  function Pack(items: seq<string>): (r: string)
    ensures |r| >= 2 && r[0] == '(' && r[|r| - 1] == ')'
    ensures r[1..|r| - 1] == Join(items, ", ")
  {
    "(" + Join(items, ", ") + ")"
  }

  /** The statement's clauses in order. */
  function InsertClauses(table: string, m: Mapping): seq<string> {
    ["INSERT", "INTO", table, Pack(ColumnTexts(m)), "VALUES", Pack(ValueTexts(m))]
  }

  /** The statement as its clauses separated by single spaces, or
      `IllegalStateException` for an empty mapping. */
  function Statement(table: string, m: Mapping): Result<string> {
    if |m| == 0 then Err(IllegalStateException) else Ok(Join(InsertClauses(table, m), " "))
  }

  /** Rendering fails exactly on an empty mapping; otherwise the text is
      `INSERT INTO`, the table, the packed columns, `VALUES` and the packed
      values. */
  lemma StatementShape(table: string, m: Mapping)
    ensures Statement(table, m).Err? <==> |m| == 0
    ensures Statement(table, m).Err? ==> Statement(table, m).error == IllegalStateException
    ensures |m| > 0 ==>
      Statement(table, m).value ==
        "INSERT INTO " + table + " " + Pack(ColumnTexts(m)) + " VALUES " + Pack(ValueTexts(m))
  {
    var columns, values := Pack(ColumnTexts(m)), Pack(ValueTexts(m));
    assert InsertClauses(table, m) == ["INSERT", "INTO", table, columns, "VALUES", values];
    JoinSix("INSERT", "INTO", table, columns, "VALUES", values, " ");
    AppendThree("INSERT" + " " + "INTO" + " " + table + " " + columns, " ", "VALUES", " ");
    assert "INSERT" + " " + "INTO" + " " == "INSERT INTO " && " " + "VALUES" + " " == " VALUES ";
  }

  /** Columns and values come from the same entries: the two lists are as
      long as the mapping and the i-th column belongs with the i-th value. */
  lemma ColumnsMatchValues(m: Mapping)
    ensures |ColumnTexts(m)| == |ValueTexts(m)| == |m|
    ensures forall i :: 0 <= i < |m| ==>
      ColumnTexts(m)[i] == m[i].column && ValueTexts(m)[i] == Render(m[i].value)
  {
  }

  /** One item packs as `(x)`. */
  lemma PackOne(x: string)
    ensures Pack([x]) == "(" + x + ")"
  {
  }

  /** The example `{id: 1 unquoted, name: "a" quoted}` into table `T`. */
  lemma Example()
    ensures Statement("T", [Entry("id", Literal(Some("1"), false)), Entry("name", Literal(Some("a"), true))]) ==
      Ok("INSERT INTO T (id, name) VALUES (1, 'a')")
  {
    var m := [Entry("id", Literal(Some("1"), false)), Entry("name", Literal(Some("a"), true))];
    StatementShape("T", m);
    ExampleColumns(m);
    ExampleValues(m);
    ExampleText(Pack(ColumnTexts(m)), Pack(ValueTexts(m)));
  }

  lemma ExampleColumns(m: Mapping)
    requires m == [Entry("id", Literal(Some("1"), false)), Entry("name", Literal(Some("a"), true))]
    ensures Pack(ColumnTexts(m)) == "(id, name)"
  {
    assert ColumnTexts(m) == ["id", "name"];
    JoinTwo("id", "name", ", ");
  }

  lemma ExampleValues(m: Mapping)
    requires m == [Entry("id", Literal(Some("1"), false)), Entry("name", Literal(Some("a"), true))]
    ensures Pack(ValueTexts(m)) == "(1, 'a')"
  {
    assert Render(m[0].value) == "1";
    assert Render(m[1].value) == [QUOTE] + "a" + [QUOTE] == "'a'";
    assert ValueTexts(m) == ["1", "'a'"];
    JoinTwo("1", "'a'", ", ");
  }

  lemma ExampleText(columns: string, values: string)
    requires columns == "(id, name)" && values == "(1, 'a')"
    ensures "INSERT INTO " + "T" + " " + columns + " VALUES " + values == "INSERT INTO T (id, name) VALUES (1, 'a')"
  {
  }

  class InsertionQuery {
    const table: string
    var insertionMappings: Mapping

    constructor (table: string, insertionMappings: Mapping)
      ensures this.table == table && this.insertionMappings == insertionMappings
    {
      this.table := table;
      this.insertionMappings := insertionMappings;
    }

    /** `setInsertionMappings`: a null mapping is rejected and nothing
        changes; any other mapping, empty ones included, replaces the old. */
    method SetInsertionMappings(m: Option<Mapping>) returns (o: Outcome)
      modifies this
      ensures m.None? ==> o == Fail(NullPointerException) && insertionMappings == old(insertionMappings)
      ensures m.Some? ==> o == Pass && insertionMappings == m.value
    {
      if m.None? {
        return Fail(NullPointerException);
      }
      insertionMappings := m.value;
      o := Pass;
    }

    /** `toSQLString`, in the source's `String.format` form. It only reads
        the mapping. */
    function ToSQLString(): (r: Result<string>)
      reads this
      ensures r == Statement(table, insertionMappings)
    {
      StatementShape(table, insertionMappings);
      if |insertionMappings| == 0 then Err(IllegalStateException)
      else
        var packedColumns := Pack(ColumnTexts(insertionMappings));
        var packedValues := Pack(ValueTexts(insertionMappings));
        Ok("INSERT INTO " + table + " " + packedColumns + " VALUES " + packedValues)
    }
  }

  /** Both constructors: a null mapping makes construction fail with
      `NullPointerException`; any other mapping, even an empty one, is kept. */
  method New(table: string, m: Option<Mapping>) returns (r: Result<InsertionQuery>)
    ensures m.None? ==> r == Err(NullPointerException)
    ensures m.Some? ==> r.Ok? && fresh(r.value) && r.value.table == table && r.value.insertionMappings == m.value
  {
    if m.None? {
      return Err(NullPointerException);
    }
    var q := new InsertionQuery(table, m.value);
    r := Ok(q);
  }

  /** An empty mapping is accepted at construction and rejected at
      rendering. */
  method EmptyMappingFailsAtRender(table: string) returns (built: bool, text: Result<string>)
    ensures built && text == Err(IllegalStateException)
  {
    var r := New(table, Some([]));
    built := r.Ok?;
    var q := r.value;
    text := q.ToSQLString();
  }
}
