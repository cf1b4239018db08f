/** `UpdateQuery`:
    `UPDATE <table> SET col1=val1, col2=val2, ...[ WHERE <condition>]`.
    The mapping may not be null but may be empty until rendering, which
    then fails; the condition may be null. */
module Update {
  import opened Wrappers
  import opened Text
  import opened Literals
  import opened Clauses

  /** One assignment: the column, `=` with no spaces, the rendered value. */
  function Assignment(e: Entry): string {
    e.column + "=" + Render(e.value)
  }

  /** The assignments in the mapping's iteration order. */
  function Assignments(m: Mapping): seq<string> {
    seq(|m|, i requires 0 <= i < |m| => Assignment(m[i]))
  }

  /** The statement's clauses in order. */
  function UpdateClauses(table: string, m: Mapping, condition: Option<string>): seq<string> {
    ["UPDATE", table, "SET", Join(Assignments(m), ", ")] + WhereClause(condition)
  }

  /** The statement as its clauses separated by single spaces, or
      `IllegalStateException` for an empty mapping. */
  function Statement(table: string, m: Mapping, condition: Option<string>): Result<string> {
    if |m| == 0 then Err(IllegalStateException) else Ok(Join(UpdateClauses(table, m, condition), " "))
  }

  /** Rendering fails exactly on an empty mapping, whatever the condition.
      Otherwise the text is `UPDATE <table> SET <assignments>`, followed by
      ` WHERE ` and the condition exactly when there is one. */
  lemma StatementShape(table: string, m: Mapping, condition: Option<string>)
    ensures Statement(table, m, condition).Err? <==> |m| == 0
    ensures Statement(table, m, condition).Err? ==> Statement(table, m, condition).error == IllegalStateException
    ensures |m| > 0 ==>
      Statement(table, m, None).value == "UPDATE " + table + " SET " + Join(Assignments(m), ", ")
    ensures |m| > 0 && condition.Some? ==>
      Statement(table, m, condition).value == Statement(table, m, None).value + " WHERE " + condition.value
  {
    var pairs := Join(Assignments(m), ", ");
    var base := ["UPDATE", table, "SET", pairs];
    assert UpdateClauses(table, m, condition) == base + WhereClause(condition);
    assert UpdateClauses(table, m, None) == base + WhereClause(None);
    JoinWhere(base, condition);
    JoinWhere(base, None);
    assert Join(base, " ") == "UPDATE " + table + " SET " + pairs by {
      JoinFour("UPDATE", table, "SET", pairs, " ");
      AppendThree("UPDATE" + " " + table, " ", "SET", " ");
      assert "UPDATE" + " " == "UPDATE " && " " + "SET" + " " == " SET ";
    }
  }

  /** With the same table and non-empty mapping, two conditions give the
      same text exactly when they are equal: `setCondition` always shows in
      the next rendering, and `setCondition(null)` removes the clause. */
  lemma ConditionDetermined(table: string, m: Mapping, c1: Option<string>, c2: Option<string>)
    requires |m| > 0
    ensures Statement(table, m, c1) == Statement(table, m, c2) <==> c1 == c2
  {
    var base := ["UPDATE", table, "SET", Join(Assignments(m), ", ")];
    JoinWhere(base, c1);
    JoinWhere(base, c2);
    WhereDetermines(Join(base, " "), c1, c2);
  }

  /** The example `{id: 1 unquoted, name: "a" quoted}` in table `T` where
      `age > 18`. */
  lemma Example()
    ensures Statement("T", [Entry("id", Literal(Some("1"), false)), Entry("name", Literal(Some("a"), true))], Some("age > 18")) ==
      Ok("UPDATE T SET id=1, name='a' WHERE age > 18")
  {
    ExampleAssignments();
    ExampleFromAssignments([Entry("id", Literal(Some("1"), false)), Entry("name", Literal(Some("a"), true))]);
  }

  lemma ExampleFromAssignments(m: Mapping)
    requires |m| > 0 && Join(Assignments(m), ", ") == "id=1, name='a'"
    ensures Statement("T", m, Some("age > 18")) == Ok("UPDATE T SET id=1, name='a' WHERE age > 18")
  {
    StatementShape("T", m, Some("age > 18"));
    ExampleText(Join(Assignments(m), ", "));
  }

  lemma ExampleText(pairs: string)
    requires pairs == "id=1, name='a'"
    ensures "UPDATE " + "T" + " SET " + pairs + " WHERE " + "age > 18" == "UPDATE T SET id=1, name='a' WHERE age > 18"
  {
  }

  lemma ExampleAssignments()
    ensures Join(Assignments([Entry("id", Literal(Some("1"), false)), Entry("name", Literal(Some("a"), true))]), ", ") ==
      "id=1, name='a'"
  {
    var m := [Entry("id", Literal(Some("1"), false)), Entry("name", Literal(Some("a"), true))];
    assert Render(m[0].value) == "1";
    assert Render(m[1].value) == [QUOTE] + "a" + [QUOTE] == "'a'";
    assert Assignment(m[0]) == "id=1";
    assert Assignment(m[1]) == "name='a'";
    assert Assignments(m) == ["id=1", "name='a'"];
    assert Join(["id=1", "name='a'"], ", ") == "id=1, name='a'";
  }

  class UpdateQuery {
    const table: string
    var updateMappings: Mapping
    var condition: Option<string>

    constructor (table: string, updateMappings: Mapping, condition: Option<string>)
      ensures this.table == table && this.updateMappings == updateMappings && this.condition == condition
    {
      this.table := table;
      this.updateMappings := updateMappings;
      this.condition := condition;
    }

    /** `setUpdateMappings`: a null mapping is rejected and nothing changes;
        any other mapping, empty ones included, replaces the old. */
    method SetUpdateMappings(m: Option<Mapping>) returns (o: Outcome)
      modifies this
      ensures m.None? ==> o == Fail(NullPointerException) && updateMappings == old(updateMappings)
      ensures m.Some? ==> o == Pass && updateMappings == m.value
      ensures condition == old(condition)
    {
      if m.None? {
        return Fail(NullPointerException);
      }
      updateMappings := m.value;
      o := Pass;
    }

    /** `setCondition`: last write wins; null removes the condition. */
    method SetCondition(condition: Option<string>)
      modifies this
      ensures this.condition == condition && updateMappings == old(updateMappings)
    {
      this.condition := condition;
    }

    /** `toSQLString`, built the way the source appends to its
        `StringBuilder`. */
    function ToSQLString(): (r: Result<string>)
      reads this
      ensures r == Statement(table, updateMappings, condition)
    {
      StatementShape(table, updateMappings, condition);
      if |updateMappings| == 0 then Err(IllegalStateException)
      else
        var sb := "UPDATE " + table + " SET " + Join(Assignments(updateMappings), ", ");
        Ok(if condition.Some? then sb + " WHERE " + condition.value else sb)
    }
  }

  /** The three-argument constructors: a null mapping makes construction
      fail with `NullPointerException`; an empty one is kept. */
  method New(table: string, m: Option<Mapping>, condition: Option<string>) returns (r: Result<UpdateQuery>)
    ensures m.None? ==> r == Err(NullPointerException)
    ensures m.Some? ==>
      && r.Ok? && fresh(r.value) && r.value.table == table
      && r.value.updateMappings == m.value && r.value.condition == condition
  {
    if m.None? {
      return Err(NullPointerException);
    }
    var q := new UpdateQuery(table, m.value, condition);
    r := Ok(q);
  }

  /** The two-argument constructors pass a null condition. */
  method NewWithoutCondition(table: string, m: Option<Mapping>) returns (r: Result<UpdateQuery>)
    ensures m.None? ==> r == Err(NullPointerException)
    ensures m.Some? ==>
      && r.Ok? && fresh(r.value) && r.value.table == table
      && r.value.updateMappings == m.value && r.value.condition == None
  {
    r := New(table, m, None);
  }
}
