/** `DeletionQuery`: `DELETE FROM <table>[ WHERE <condition>]`. There is no
    emptiness check, so rendering never fails. */
module Deletion {
  import opened Wrappers
  import opened Text
  import opened Clauses

  /** The statement's clauses in order. */
  function DeleteClauses(table: string, condition: Option<string>): seq<string> {
    ["DELETE", "FROM", table] + WhereClause(condition)
  }

  /** The statement as its clauses separated by single spaces. */
  function Statement(table: string, condition: Option<string>): string {
    Join(DeleteClauses(table, condition), " ")
  }

  /** Without a condition the text is exactly `DELETE FROM <table>`; with
      one, ` WHERE ` and the condition's text follow. */
  lemma StatementShape(table: string, condition: Option<string>)
    ensures Statement(table, None) == "DELETE FROM " + table
    ensures condition.Some? ==> Statement(table, condition) == "DELETE FROM " + table + " WHERE " + condition.value
  {
    var base := ["DELETE", "FROM", table];
    JoinWhere(base, condition);
    JoinWhere(base, None);
    JoinThree("DELETE", "FROM", table, " ");
    assert "DELETE" + " " + "FROM" + " " == "DELETE FROM ";
  }

  /** Two conditions on the same table give the same text exactly when
      they are equal: `setCondition` always shows in the next rendering. */
  lemma ConditionDetermined(table: string, c1: Option<string>, c2: Option<string>)
    ensures Statement(table, c1) == Statement(table, c2) <==> c1 == c2
  {
    var base := ["DELETE", "FROM", table];
    JoinWhere(base, c1);
    JoinWhere(base, c2);
    WhereDetermines(Join(base, " "), c1, c2);
  }

  /** The examples: table `T`, without and with the filter `age > 18`. */
  lemma Example()
    ensures Statement("T", None) == "DELETE FROM T"
    ensures Statement("T", Some("age > 18")) == "DELETE FROM T WHERE age > 18"
  {
    StatementShape("T", Some("age > 18"));
    ExampleText();
  }

  lemma ExampleText()
    ensures "DELETE FROM " + "T" == "DELETE FROM T"
    ensures "DELETE FROM " + "T" + " WHERE " + "age > 18" == "DELETE FROM T WHERE age > 18"
  {
  }

  class DeletionQuery {
    const table: string
    var condition: Option<string>

    /** The one-argument constructors: as if a null condition were passed. */
    constructor (table: string)
      ensures this.table == table && condition == None
    {
      this.table := table;
      condition := None;
    }

    constructor WithCondition(table: string, condition: Option<string>)
      ensures this.table == table && this.condition == condition
    {
      this.table := table;
      this.condition := condition;
    }

    /** `setCondition`: last write wins; null removes the condition. */
    method SetCondition(condition: Option<string>)
      modifies this
      ensures this.condition == condition
    {
      this.condition := condition;
    }

    /** `toSQLString`, built the way the source appends to its
        `StringBuilder`; it returns a string in every state. */
    function ToSQLString(): (r: string)
      reads this
      ensures r == Statement(table, condition)
    {
      StatementShape(table, condition);
      var sb := "DELETE FROM " + table;
      if condition.Some? then sb + " WHERE " + condition.value else sb
    }
  }
}
