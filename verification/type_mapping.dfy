/**
 * The translation of a Firebird column's type code and null flag into the
 * tokens of a MySQL column definition (`MigrationManager.create_table`).
 */
module TypeMapping {
  import opened Wrappers

  /** The type codes the copier recognises, with the MySQL type each becomes. */
  const TypeTable: map<int, string> := map[
    7 := "INTEGER",
    8 := "FLOAT",
    9 := "DECIMAL",
    10 := "VARCHAR",
    11 := "CHAR",
    12 := "DATE",
    13 := "TIME",
    14 := "TIMESTAMP"
  ]

  /** The token of every code missing from the table. */
  const Unknown: string := "UNKNOWN"

  /** The constraint of a column whose null flag is 0. */
  const NotNull: string := "NOT NULL"

  /** Every token a type code can become. */
  const DdlTokens: set<string> :=
    {"INTEGER", "FLOAT", "DECIMAL", "VARCHAR", "CHAR", "DATE", "TIME", "TIMESTAMP", Unknown}

  /**
   * The MySQL type of a column whose Firebird type code is `code`: a table
   * lookup that falls back to UNKNOWN, so it is defined for every integer.
   */
  function MapType(code: int): (token: string)
    ensures token in DdlTokens && token != ""
    ensures token == Unknown <==> !(7 <= code <= 14)
    ensures ' ' !in token && ',' !in token && '(' !in token
  {
    if code in TypeTable then TypeTable[code] else Unknown
  }

  /**
   * The MySQL type of a catalog row's type column, which may be SQL NULL:
   * a NULL key is missing from the table too, so it falls back to UNKNOWN.
   */
  function FieldTypeToken(fieldType: Option<int>): (token: string)
    ensures token in DdlTokens && token != ""
    ensures token == Unknown <==> fieldType.None? || !(7 <= fieldType.value <= 14)
    ensures fieldType.Some? ==> token == MapType(fieldType.value)
    ensures ' ' !in token && ',' !in token && '(' !in token
  {
    match fieldType
    case None => Unknown
    case Some(code) => MapType(code)
  }

  /** The type code a token stands for, read off the token alone. */
  function CodeOf(token: string): Option<int>
  {
    if token == "INTEGER" then Some(7)
    else if token == "FLOAT" then Some(8)
    else if token == "DECIMAL" then Some(9)
    else if token == "VARCHAR" then Some(10)
    else if token == "CHAR" then Some(11)
    else if token == "DATE" then Some(12)
    else if token == "TIME" then Some(13)
    else if token == "TIMESTAMP" then Some(14)
    else None
  }

  /**
   * Codes 7 to 14 become INTEGER, FLOAT, DECIMAL, VARCHAR, CHAR, DATE, TIME
   * and TIMESTAMP respectively, and no two of them share a token: the token
   * gives the code back. Every other code becomes UNKNOWN, which stands for none.
   */
  lemma MapTypeInverse(code: int)
    ensures 7 <= code <= 14 ==> CodeOf(MapType(code)) == Some(code)
    ensures !(7 <= code <= 14) ==> MapType(code) == Unknown && CodeOf(MapType(code)) == None
  {
  }

  /** The constraint token of a column: `NOT NULL` exactly when the flag is 0, otherwise nothing. */
  function NullConstraint(nullFlag: Option<int>): (constraint: string)
    ensures constraint == NotNull <==> nullFlag == Some(0)
    ensures constraint != NotNull ==> constraint == ""
  {
    if nullFlag == Some(0) then NotNull else ""
  }
}
