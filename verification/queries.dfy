/**
 * The statements `MigrationManager.clone_database` sends while copying rows:
 * the SELECT read from the source and the INSERT written to the target for
 * each row.
 */
module Queries {
  import opened Wrappers
  import opened SqlText

  /**
   * The source query: the caller's columns in the caller's order, or `*`
   * when no columns were given or the list is empty (both are false in Python).
   */
  function SelectSql(table: string, columns: Option<seq<string>>): string
  {
    if columns.Some? && |columns.value| > 0 then "SELECT " + Join(columns.value) + " FROM " + table
    else "SELECT * FROM " + table
  }

  /** What a SELECT reads: every column, or the listed ones in order. */
  datatype Projection = AllColumns | Columns(names: seq<string>)

  /** Reads the projection back from a SELECT over `table`. */
  function ParseSelect(sql: string, table: string): Option<Projection>
  {
    var prefix, suffix := "SELECT ", " FROM " + table;
    if prefix <= sql && |prefix| + |suffix| <= |sql| && EndsWith(sql, suffix) then
      var list := sql[|prefix|..|sql| - |suffix|];
      if list == "*" then Some(AllColumns) else Some(Columns(Split(list)))
    else None
  }

  /**
   * The source query reads all columns when the caller gave none (or an empty
   * list), and otherwise exactly the caller's columns in the caller's order.
   */
  lemma SelectRoundTrip(table: string, columns: Option<seq<string>>)
    requires columns.Some? ==> columns.value != ["*"]
    requires columns.Some? ==> forall k :: 0 <= k < |columns.value| ==> NoSep(columns.value[k])
    ensures ParseSelect(SelectSql(table, columns), table) ==
            Some(if columns.Some? && |columns.value| > 0 then Columns(columns.value) else AllColumns)
  {
    var sql := SelectSql(table, columns);
    var prefix, suffix := "SELECT ", " FROM " + table;
    if columns.Some? && |columns.value| > 0 {
      var list := Join(columns.value);
      assert sql == prefix + list + suffix;
      assert sql[|prefix|..|sql| - |suffix|] == list;
      SplitJoin(columns.value);
    } else {
      assert sql == prefix + "*" + suffix;
      assert sql[|prefix|..|sql| - |suffix|] == "*";
    }
  }

  /** `["%s"] * n`. */
  function Repeat(s: string, n: nat): (r: seq<string>)
  {
    seq(n, _ => s)
  }

  /** `", ".join(["%s"] * n)`. */
  function Placeholders(n: nat): string
  {
    Join(Repeat("%s", n))
  }

  /** The insert for a row of `arity` values: `f'INSERT INTO {table_name} VALUES ({...})'`. */
  function InsertSql(table: string, arity: nat): string
  {
    "INSERT INTO " + table + " VALUES (" + Placeholders(arity) + ")"
  }

  /** The placeholder list holds exactly `n` markers: `n` occurrences of `%`. */
  lemma {:induction false} PlaceholderCount(n: nat)
    ensures Count('%', Placeholders(n)) == n
    decreases n
  {
    if n >= 2 {
      assert Repeat("%s", n)[1..] == Repeat("%s", n - 1);
      assert Placeholders(n) == "%s" + (Sep + Placeholders(n - 1));
      PlaceholderCount(n - 1);
      CountConcat('%', "%s", Sep + Placeholders(n - 1));
      CountConcat('%', Sep, Placeholders(n - 1));
    } else if n == 1 {
      assert Placeholders(1) == "%s";
    }
  }

  /** The number of `%s` markers in a placeholder list, or None when it is not one. */
  function ParsePlaceholders(list: string): Option<nat>
  {
    if list == "" then Some(0)
    else
      var markers := Split(list);
      if markers == Repeat("%s", |markers|) then Some(|markers|) else None
  }

  /** Reads the table name and the number of placeholders back from an INSERT. */
  function ParseInsert(sql: string): Option<(string, nat)>
  {
    var prefix, middle := "INSERT INTO ", " VALUES ";
    if !(prefix <= sql && |sql| > |prefix| && sql[|sql| - 1] == ')') then None
    else
      match SplitAtFirst(sql[|prefix|..|sql| - 1], '(')
      case None => None
      case Some((head, list)) =>
        if !EndsWith(head, middle) then None
        else
          match ParsePlaceholders(list)
          case None => None
          case Some(n) => Some((head[..|head| - |middle|], n))
  }

  /** The placeholder list gives its length back: `n` markers separated by `", "`. */
  lemma PlaceholdersRoundTrip(n: nat)
    ensures ParsePlaceholders(Placeholders(n)) == Some(n)
  {
    if n > 0 {
      var markers := Repeat("%s", n);
      forall k | 0 <= k < n
        ensures NoSep(markers[k])
      {
        CommaFreeNoSep(markers[k]);
      }
      SplitJoin(markers);
    }
  }

  /**
   * An insert names its table and carries exactly `arity` placeholders, when
   * the table name holds no parenthesis.
   */
  lemma InsertRoundTrip(table: string, arity: nat)
    requires '(' !in table
    ensures ParseInsert(InsertSql(table, arity)) == Some((table, arity))
  {
    var sql := InsertSql(table, arity);
    var prefix, middle := "INSERT INTO ", " VALUES ";
    var list := Placeholders(arity);
    assert sql == prefix + ((table + middle) + ['('] + list) + ")";
    assert prefix <= sql;
    assert sql[|prefix|..|sql| - 1] == (table + middle) + ['('] + list;
    SplitAtFirstOf(table + middle, '(', list);
    assert (table + middle)[..|table|] == table;
    PlaceholdersRoundTrip(arity);
  }
}
