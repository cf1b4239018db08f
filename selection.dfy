/** `SelectionQuery`: `SELECT <columns> FROM <table>[ WHERE <filter>]`.
    The table is fixed at construction; the selections and the filter are
    fields the setters overwrite. `execute` is not part of this model. */
module Selection {
  import opened Wrappers
  import opened Text
  import opened Clauses

  const WILDCARD_SYNTAX: string := "*"

  /** The projection: the wildcard for null or empty selections, else the
      selections' texts joined by `, ` in list order. */
  function Columns(selections: Option<seq<string>>): string {
    if selections.None? || |selections.value| == 0 then WILDCARD_SYNTAX
    else Join(selections.value, ", ")
  }

  /** The statement's clauses in order. */
  function SelectClauses(table: string, selections: Option<seq<string>>, filter: Option<string>): seq<string> {
    ["SELECT", Columns(selections), "FROM", table] + WhereClause(filter)
  }

  /** The statement as its clauses separated by single spaces. */
  function Statement(table: string, selections: Option<seq<string>>, filter: Option<string>): string {
    Join(SelectClauses(table, selections, filter), " ")
  }

  /** Without a filter the statement ends with the table: no `WHERE` and no
      trailing space. With one, ` WHERE ` and the filter's text follow. */
  lemma StatementShape(table: string, selections: Option<seq<string>>, filter: Option<string>)
    ensures Statement(table, selections, None) == "SELECT " + Columns(selections) + " FROM " + table
    ensures filter.Some? ==>
      Statement(table, selections, filter) == Statement(table, selections, None) + " WHERE " + filter.value
  {
    var columns := Columns(selections);
    var base := ["SELECT", columns, "FROM", table];
    assert SelectClauses(table, selections, filter) == base + WhereClause(filter);
    assert SelectClauses(table, selections, None) == base + WhereClause(None);
    JoinWhere(base, filter);
    JoinWhere(base, None);
    assert Join(base, " ") == "SELECT " + columns + " FROM " + table by {
      JoinFour("SELECT", columns, "FROM", table, " ");
      AppendThree("SELECT" + " " + columns, " ", "FROM", " ");
      assert "SELECT" + " " == "SELECT " && " " + "FROM" + " " == " FROM ";
    }
  }

  /** Null and empty selections both give the wildcard; a non-empty list
      gives its items, a single item giving exactly that item. */
  lemma ColumnsCases(table: string, items: seq<string>)
    ensures Statement(table, None, None) == Statement(table, Some([]), None) == "SELECT * FROM " + table
    ensures |items| > 0 ==> Columns(Some(items)) == Join(items, ", ")
    ensures |items| == 1 ==> Columns(Some(items)) == items[0]
  {
    StatementShape(table, None, None);
    StatementShape(table, Some([]), None);
  }

  /** The filter is recoverable from the text: two statements over the same
      table and selections are equal exactly when their filters are. */
  lemma FilterDetermined(table: string, selections: Option<seq<string>>, f1: Option<string>, f2: Option<string>)
    ensures Statement(table, selections, f1) == Statement(table, selections, f2) <==> f1 == f2
  {
    var base := ["SELECT", Columns(selections), "FROM", table];
    JoinWhere(base, f1);
    JoinWhere(base, f2);
    WhereDetermines(Join(base, " "), f1, f2);
  }

  /** The end-to-end example: selections `id`, `name`, filter `age > 18`. */
  lemma Example()
    ensures Statement("users", Some(["id", "name"]), Some("age > 18")) ==
      "SELECT id, name FROM users WHERE age > 18"
  {
    StatementShape("users", Some(["id", "name"]), Some("age > 18"));
    ExampleColumns();
    ExampleText(Columns(Some(["id", "name"])));
  }

  lemma ExampleColumns()
    ensures Columns(Some(["id", "name"])) == "id, name"
  {
    JoinTwo("id", "name", ", ");
  }

  lemma ExampleText(columns: string)
    requires columns == "id, name"
    ensures "SELECT " + columns + " FROM " + "users" + " WHERE " + "age > 18" ==
      "SELECT id, name FROM users WHERE age > 18"
  {
  }

  class SelectionQuery {
    const table: string
    var selections: Option<seq<string>>
    var filter: Option<string>

    /** Both constructors (by identifier and by name) set null selections
        and no filter. */
    constructor (table: string)
      ensures this.table == table && selections == None && filter == None
    {
      this.table := table;
      selections := None;
      filter := None;
    }

    /** `setSelections(List)`: last write wins; null is allowed. */
    method SetSelections(selections: Option<seq<string>>)
      modifies this
      ensures this.selections == selections && filter == old(filter)
    {
      this.selections := selections;
    }

    /** `setSelections(Selectable...)`: the same as passing a list of the
        same items in the same order. */
    method SetSelectionItems(items: seq<string>)
      modifies this
      ensures selections == Some(items) && filter == old(filter)
    {
      SetSelections(Some(items));
    }

    method SetFilter(filter: Option<string>)
      modifies this
      ensures this.filter == filter && selections == old(selections)
    {
      this.filter := filter;
    }

    /** `toSQLString`, built the way the source appends to its
        `StringBuilder`; it reads the current fields only. */
    function ToSQLString(): (r: string)
      reads this
      ensures r == Statement(table, selections, filter)
    {
      StatementShape(table, selections, filter);
      var sb := "SELECT " + Columns(selections) + " FROM " + table;
      if filter.Some? then sb + " WHERE " + filter.value else sb
    }
  }

  /** A fresh query renders `SELECT * FROM <table>`; setting a filter and
      rendering again reflects the new filter. */
  method RenderAfterSetFilter(table: string, f: string) returns (before: string, after: string)
    ensures before == "SELECT * FROM " + table
    ensures after == before + " WHERE " + f
  {
    var q := new SelectionQuery(table);
    ColumnsCases(table, []);
    before := q.ToSQLString();
    q.SetFilter(Some(f));
    StatementShape(table, None, Some(f));
    after := q.ToSQLString();
  }
}
