/**
 * The CREATE TABLE statement the copier issues on the target database
 * (`MigrationManager.create_table`), built from the source catalog's rows.
 */
module Ddl {
  import opened Wrappers
  import opened SqlText
  import opened TypeMapping

  /** One catalog row: a field's name, its Firebird type code and its null flag (either possibly SQL NULL). */
  datatype FieldRow = FieldRow(fieldName: string, fieldType: Option<int>, nullFlag: Option<int>)

  /** `f'{field_name} {sql_type} {null_constraint}'`: a nullable column keeps its trailing space. */
  function ColumnDef(row: FieldRow): string
  {
    row.fieldName + " " + FieldTypeToken(row.fieldType) + " " + NullConstraint(row.nullFlag)
  }

  /** The three parts of a column definition. */
  datatype ColumnParts = ColumnParts(name: string, token: string, constraint: string)

  /**
   * Reads a column definition from the right: a trailing space means no
   * constraint, a trailing ` NOT NULL` the constraint; the type token is the
   * last space-free word before it and the name everything ahead of that, so
   * names holding spaces are read back too.
   */
  function ParseColumnDef(d: string): Option<ColumnParts>
  {
    var body: Option<(string, string)> :=
      if |d| >= 1 && d[|d| - 1] == ' ' then Some((d[..|d| - 1], ""))
      else if EndsWith(d, " " + NotNull) then Some((d[..|d| - |" " + NotNull|], NotNull))
      else None;
    match body
    case None => None
    case Some((nameAndType, constraint)) =>
      match SplitAtLast(nameAndType, ' ')
      case None => None
      case Some((name, token)) => Some(ColumnParts(name, token, constraint))
  }

  /** The definition of a nullable column is read back with an empty constraint. */
  lemma ParseNullableDef(name: string, token: string)
    requires ' ' !in token
    ensures ParseColumnDef(name + " " + token + " ") == Some(ColumnParts(name, token, ""))
  {
    var d := name + " " + token + " ";
    assert d[..|d| - 1] == name + [' '] + token;
    SplitAtLastOf(name, ' ', token);
  }

  /** The definition of a NOT NULL column is read back with its constraint. */
  lemma ParseNotNullDef(name: string, token: string)
    requires ' ' !in token
    ensures ParseColumnDef(name + " " + token + " " + NotNull) == Some(ColumnParts(name, token, NotNull))
  {
    var d := name + " " + token + " " + NotNull;
    assert d[|d| - 1] == 'L';
    assert EndsWith(d, " " + NotNull);
    assert d[..|d| - |" " + NotNull|] == name + [' '] + token;
    SplitAtLastOf(name, ' ', token);
  }

  /** A column definition gives back the field name, the mapped type and the constraint it was built from. */
  lemma ColumnDefRoundTrip(row: FieldRow)
    ensures ParseColumnDef(ColumnDef(row)) ==
            Some(ColumnParts(row.fieldName, FieldTypeToken(row.fieldType), NullConstraint(row.nullFlag)))
  {
    var token := FieldTypeToken(row.fieldType);
    if row.nullFlag == Some(0) {
      ParseNotNullDef(row.fieldName, token);
    } else {
      assert ColumnDef(row) == row.fieldName + " " + token + " ";
      ParseNullableDef(row.fieldName, token);
    }
  }

  /** The column definitions of a catalog, appended one per row in catalog order. */
  function ColumnDefs(structure: seq<FieldRow>): seq<string>
  {
    if |structure| == 0 then []
    else ColumnDefs(structure[..|structure| - 1]) + [ColumnDef(structure[|structure| - 1])]
  }

  /** One definition per catalog row, the k-th built from the k-th row. */
  lemma {:induction false} ColumnDefsAt(structure: seq<FieldRow>)
    ensures |ColumnDefs(structure)| == |structure|
    ensures forall k :: 0 <= k < |structure| ==> ColumnDefs(structure)[k] == ColumnDef(structure[k])
    decreases |structure|
  {
    if |structure| > 0 {
      ColumnDefsAt(structure[..|structure| - 1]);
    }
  }

  /** The loop of `create_table` that appends one definition per catalog row. */
  method BuildColumnDefs(structure: seq<FieldRow>) returns (columns: seq<string>)
    ensures columns == ColumnDefs(structure)
  {
    columns := [];
    for i := 0 to |structure|
      invariant columns == ColumnDefs(structure[..i])
    {
      assert structure[..i + 1][..i] == structure[..i];
      columns := columns + [ColumnDef(structure[i])];
    }
    assert structure[..|structure|] == structure;
  }

  /** `f'CREATE TABLE {table_name} ({", ".join(columns)})'`. */
  function CreateTableSql(table: string, columns: seq<string>): string
  {
    "CREATE TABLE " + table + " (" + Join(columns) + ")"
  }

  /** Reads the table name and the column definitions back from a CREATE TABLE statement. */
  function ParseCreateTable(sql: string): Option<(string, seq<string>)>
  {
    var prefix := "CREATE TABLE ";
    if !(prefix <= sql && |sql| > |prefix| && sql[|sql| - 1] == ')') then None
    else
      match SplitAtFirst(sql[|prefix|..|sql| - 1], '(')
      case None => None
      case Some((head, inner)) =>
        if |head| >= 1 && head[|head| - 1] == ' ' then Some((head[..|head| - 1], Split(inner)))
        else None
  }

  /**
   * A CREATE TABLE statement gives back its table name and its column list,
   * when the name holds no parenthesis and the list is non-empty and free of separators.
   */
  lemma CreateTableRoundTrip(table: string, columns: seq<string>)
    requires '(' !in table
    requires |columns| >= 1
    requires forall k :: 0 <= k < |columns| ==> NoSep(columns[k])
    ensures ParseCreateTable(CreateTableSql(table, columns)) == Some((table, columns))
  {
    var sql := CreateTableSql(table, columns);
    var prefix := "CREATE TABLE ";
    var inner := Join(columns);
    assert sql == prefix + (table + " " + ['('] + inner) + ")";
    assert prefix <= sql;
    assert sql[|prefix|..|sql| - 1] == table + " " + ['('] + inner;
    SplitAtFirstOf(table + " ", '(', inner);
    assert (table + " ")[..|table|] == table;
    SplitJoin(columns);
  }

  /** A column definition holds a separator only if its field name holds a comma. */
  lemma ColumnDefNoSep(row: FieldRow)
    requires ',' !in row.fieldName
    ensures NoSep(ColumnDef(row))
  {
    CommaFreeNoSep(ColumnDef(row));
  }

  /**
   * The statement `create_table` executes names the table and holds exactly
   * one definition per catalog row, in catalog order, each giving back the
   * row's name, its mapped type, and NOT NULL exactly when its null flag is 0.
   */
  lemma CreateTableFaithful(table: string, structure: seq<FieldRow>)
    requires '(' !in table
    requires |structure| >= 1
    requires forall k :: 0 <= k < |structure| ==> ',' !in structure[k].fieldName
    ensures var parsed := ParseCreateTable(CreateTableSql(table, ColumnDefs(structure)));
            && parsed.Some?
            && parsed.value.0 == table
            && |parsed.value.1| == |structure|
            && forall k :: 0 <= k < |structure| ==>
                 ParseColumnDef(parsed.value.1[k]) ==
                 Some(ColumnParts(structure[k].fieldName, FieldTypeToken(structure[k].fieldType),
                                  NullConstraint(structure[k].nullFlag)))
  {
    var columns := ColumnDefs(structure);
    ColumnDefsAt(structure);
    forall k | 0 <= k < |columns|
      ensures NoSep(columns[k])
    {
      ColumnDefNoSep(structure[k]);
    }
    CreateTableRoundTrip(table, columns);
    forall k | 0 <= k < |structure|
      ensures ParseColumnDef(columns[k]) ==
              Some(ColumnParts(structure[k].fieldName, FieldTypeToken(structure[k].fieldType),
                               NullConstraint(structure[k].nullFlag)))
    {
      ColumnDefRoundTrip(structure[k]);
    }
  }

  /** An empty catalog (a table the source does not have) still yields a statement, with an empty column list. */
  lemma EmptyCatalog(table: string)
    ensures CreateTableSql(table, ColumnDefs([])) == "CREATE TABLE " + table + " ()"
  {
  }
}
