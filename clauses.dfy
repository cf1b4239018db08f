/** Pieces the four query classes share. The collaborators that render
    themselves (`Identifier`, `Expression`, `Selectable` and the table name
    of `AbstractSQLQuery`) are not part of this model: each appears here as
    the text its own `toSQLString` (or `getTableName`) returns.

    The grammar of each statement is stated as its list of clauses, which
    the rendering joins with single spaces. */
module Clauses {
  import opened Wrappers
  import opened Text
  import opened Literals

  /** One column-to-literal entry of an insertion or update mapping: the
      column's rendered text and the literal. */
  datatype Entry = Entry(column: string, value: AnyLiteral)

  /** The entries of a `Map<Identifier, AbstractLiteral<?>>` in the map's
      iteration order. */
  type Mapping = seq<Entry>

  /** The clause a condition or filter contributes: nothing when it is null,
      else `WHERE` and the condition's text. */
  function WhereClause(condition: Option<string>): seq<string> {
    match condition
    case None => []
    case Some(c) => ["WHERE", c]
  }

  /** Joining clauses and then a `WHERE` clause is the text without the
      condition followed by ` WHERE ` and the condition. */
  lemma {:induction false} JoinWhere(clauses: seq<string>, condition: Option<string>)
    requires |clauses| >= 1
    ensures Join(clauses + WhereClause(condition), " ") ==
      Join(clauses, " ") + (if condition.Some? then " WHERE " + condition.value else "")
  {
    match condition
    case None =>
      assert clauses + [] == clauses;
    case Some(c) =>
      assert clauses + ["WHERE", c] == (clauses + ["WHERE"]) + [c];
      JoinAppend(clauses, "WHERE", " ");
      JoinAppend(clauses + ["WHERE"], c, " ");
  }

  /** Two renderings that differ only in their condition are equal exactly
      when the conditions are: changing a filter always changes the text. */
  lemma WhereDetermines(prefix: string, c1: Option<string>, c2: Option<string>)
    ensures prefix + (if c1.Some? then " WHERE " + c1.value else "") ==
            prefix + (if c2.Some? then " WHERE " + c2.value else "")
            <==> c1 == c2
  {
    var t1 := prefix + (if c1.Some? then " WHERE " + c1.value else "");
    var t2 := prefix + (if c2.Some? then " WHERE " + c2.value else "");
    if t1 == t2 && c1.Some? && c2.Some? {
      assert c1.value == t1[|prefix| + 7..];
      assert c2.value == t2[|prefix| + 7..];
    }
  }
}
