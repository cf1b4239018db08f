/** `AbstractLiteral<T>`: a typed constant and whether it is written in
    single quotes. The value and the quoting flag are fixed at construction
    and the getters return them, so a literal is a datatype value whose
    destructors `value` and `requiresQuotes` are the getters. A `null` value
    is `None`. A literal kind's `toSQLStringImpl` (by default the value's
    `toString`) is the parameter `raw`. */
module Literals {
  import opened Wrappers

  const SQL_NULL_VALUE: string := "NULL"
  const QUOTE: char := '\''

  datatype Literal<T> = Literal(value: Option<T>, requiresQuotes: bool)

  /** `toSQLString`: `NULL` for a null value; otherwise the kind's text form
      of the value, between single quotes when the literal requires quotes.
      Quote characters inside the value are not escaped. */
  function ToSQLString<T>(lit: Literal<T>, raw: T -> string): (r: string)
    ensures lit.value.None? ==> r == SQL_NULL_VALUE
    ensures lit.value.Some? && lit.requiresQuotes ==>
      |r| == |raw(lit.value.value)| + 2 && r[0] == QUOTE && r[|r| - 1] == QUOTE &&
      r[1..|r| - 1] == raw(lit.value.value)
    ensures lit.value.Some? && !lit.requiresQuotes ==> r == raw(lit.value.value)
  {
    match lit.value
    case None => SQL_NULL_VALUE
    case Some(v) =>
      var text := raw(v);
      if lit.requiresQuotes then [QUOTE] + text + [QUOTE] else text
  }

  /** A null literal renders as `NULL` whatever its quoting flag and whatever
      conversion its kind uses: the conversion is never consulted. */
  lemma NullIgnoresQuotesAndConversion<T>(q1: bool, q2: bool, raw1: T -> string, raw2: T -> string)
    ensures ToSQLString(Literal(None, q1), raw1) == ToSQLString(Literal(None, q2), raw2) == "NULL"
  {
  }

  /** Quoting does no escaping: `'O'Brien'` keeps the inner quote as is. */
  lemma QuoteIsNotEscaped(raw: string -> string)
    requires raw("O'Brien") == "O'Brien"
    ensures ToSQLString(Literal(Some("O'Brien"), true), raw) == "'O'Brien'"
  {
  }

  /** A literal of any kind, written with its value already in the kind's
      text form; the insertion and update mappings hold these, as Java's
      `AbstractLiteral<?>`. */
  type AnyLiteral = Literal<string>

  function Identity(s: string): string { s }

  /** The literal with its value (if any) replaced by the kind's text of it. */
  function Erase<T>(lit: Literal<T>, raw: T -> string): (e: AnyLiteral)
    ensures e.requiresQuotes == lit.requiresQuotes
    ensures e.value.None? <==> lit.value.None?
  {
    match lit.value
    case None => Literal(None, lit.requiresQuotes)
    case Some(v) => Literal(Some(raw(v)), lit.requiresQuotes)
  }

  /** Erasing the kind loses nothing of the rendering. */
  lemma EraseKeepsRendering<T>(lit: Literal<T>, raw: T -> string)
    ensures ToSQLString(Erase(lit, raw), Identity) == ToSQLString(lit, raw)
  {
  }

  /** The rendering of an erased literal. */
  function Render(lit: AnyLiteral): string {
    ToSQLString(lit, Identity)
  }
}
