/** `LogicalOperator`: the closed table of nine operators, each with its
    SQL token and its arity (`Type`). */
module Operators {

  datatype LogicalOperator =
    | And
    | EqualTo
    | GreaterThan
    | GreaterThanOrEqualTo
    | LessThan
    | LessThanOrEqualTo
    | Not
    | NotEqualTo
    | Or

  datatype Type = Unary | Binary

  const All: seq<LogicalOperator> :=
    [And, EqualTo, GreaterThan, GreaterThanOrEqualTo, LessThan,
     LessThanOrEqualTo, Not, NotEqualTo, Or]

  /** The `syntax` field of each constant: `toSQLString` returns it. */
  function ToSQLString(op: LogicalOperator): (r: string)
    ensures |r| > 0
  {
    match op
    case And => "AND"
    case EqualTo => "="
    case GreaterThan => ">"
    case GreaterThanOrEqualTo => ">="
    case LessThan => "<"
    case LessThanOrEqualTo => "<="
    case Not => "NOT"
    case NotEqualTo => "<>"
    case Or => "OR"
  }

  /** The `type` field of each constant. */
  function GetType(op: LogicalOperator): Type {
    match op
    case Not => Unary
    case _ => Binary
  }

  predicate IsUnary(op: LogicalOperator) {
    GetType(op) == Unary
  }

  predicate IsBinary(op: LogicalOperator) {
    GetType(op) == Binary
  }

  /** The table lists every operator exactly once. */
  lemma AllIsComplete(op: LogicalOperator)
    ensures op in All
    ensures |All| == 9
  {
  }

  /** `NOT` is the one unary operator; `isUnary` and `isBinary` are
      complements. */
  lemma Arity(op: LogicalOperator)
    ensures IsUnary(op) <==> op == Not
    ensures IsBinary(op) <==> !IsUnary(op)
  {
  }

  /** No two operators share a token, so a token names its operator. */
  lemma TokensAreDistinct(a: LogicalOperator, b: LogicalOperator)
    ensures ToSQLString(a) == ToSQLString(b) ==> a == b
  {
  }
}
