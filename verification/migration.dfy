/**
 * `MigrationManager`: copies one table from the source engine to the target
 * engine. The database driver is an abstract sink: every statement the
 * copier executes is appended to a `Trace`, and what the source returns (the
 * catalog rows and the table's rows) comes in as parameters.
 */
module Migration {
  import opened Wrappers
  import opened Ddl
  import opened Queries
  import opened Connector

  /** A column value; the copier moves values by position and never looks inside them. */
  datatype Value = Null | Int(i: int) | Text(s: string)

  /** A result row: its values in column order. */
  type Row = seq<Value>

  /** The connection a statement goes to. */
  datatype Side = Source | Target

  /** What the copier does to the databases, in order. */
  datatype Event =
    | StructureRead(table: string)
    | Executed(side: Side, sql: string, params: Row)

  /** The statements executed so far. */
  class Trace {
    var events: seq<Event>

    constructor ()
      ensures events == []
    {
      events := [];
    }

    /** `conn.execute(sql, params)`. */
    method Execute(side: Side, sql: string, params: Row)
      modifies this
      ensures events == old(events) + [Executed(side, sql, params)]
    {
      events := events + [Executed(side, sql, params)];
    }

    /** The catalog query on the source for `table`. */
    method ReadStructure(table: string)
      modifies this
      ensures events == old(events) + [StructureRead(table)]
    {
      events := events + [StructureRead(table)];
    }
  }

  /** The insert of one row: one placeholder per value, the values bound by position. */
  function InsertEvent(table: string, row: Row): Event
  {
    Executed(Target, InsertSql(table, |row|), row)
  }

  /** The inserts of the row loop, one per row in read order. */
  function InsertEvents(table: string, rows: seq<Row>): seq<Event>
  {
    if |rows| == 0 then []
    else InsertEvents(table, rows[..|rows| - 1]) + [InsertEvent(table, rows[|rows| - 1])]
  }

  /**
   * What `clone_database` does: read the catalog, create the target table,
   * run the source query, then insert every row it returned.
   */
  function CloneEvents(table: string, columns: Option<seq<string>>, catalog: seq<FieldRow>, rows: seq<Row>): seq<Event>
  {
    [ StructureRead(table),
      Executed(Target, CreateTableSql(table, ColumnDefs(catalog)), []),
      Executed(Source, SelectSql(table, columns), []) ]
    + InsertEvents(table, rows)
  }

  /** An insert into the target. */
  predicate IsInsert(e: Event)
  {
    e.Executed? && e.side == Target && "INSERT INTO " <= e.sql
  }

  /** The rows bound to the target's inserts, in execution order. */
  function InsertedRows(events: seq<Event>): seq<Row>
  {
    if |events| == 0 then []
    else (if IsInsert(events[0]) then [events[0].params] else []) + InsertedRows(events[1..])
  }

  lemma {:induction false} InsertEventsAt(table: string, rows: seq<Row>)
    ensures |InsertEvents(table, rows)| == |rows|
    ensures forall k :: 0 <= k < |rows| ==> InsertEvents(table, rows)[k] == InsertEvent(table, rows[k])
    decreases |rows|
  {
    if |rows| > 0 {
      InsertEventsAt(table, rows[..|rows| - 1]);
    }
  }

  lemma {:induction false} InsertedRowsConcat(a: seq<Event>, b: seq<Event>)
    ensures InsertedRows(a + b) == InsertedRows(a) + InsertedRows(b)
    decreases |a|
  {
    if |a| > 0 {
      assert (a + b)[0] == a[0];
      assert (a + b)[1..] == a[1..] + b;
      InsertedRowsConcat(a[1..], b);
    } else {
      assert a + b == b;
    }
  }

  /** The row loop's inserts carry exactly the rows read, in read order. */
  lemma {:induction false} InsertedRowsOfLoop(table: string, rows: seq<Row>)
    ensures InsertedRows(InsertEvents(table, rows)) == rows
    decreases |rows|
  {
    if |rows| > 0 {
      var n := |rows| - 1;
      InsertedRowsConcat(InsertEvents(table, rows[..n]), [InsertEvent(table, rows[n])]);
      InsertedRowsOfLoop(table, rows[..n]);
      assert "INSERT INTO " <= InsertSql(table, |rows[n]|);
      assert rows[..n] + [rows[n]] == rows;
    }
  }

  /**
   * Every row the source query returns is inserted into the target exactly
   * once, in read order, with its values bound by position: the rows inserted
   * are the rows read.
   */
  lemma CloneInsertsRowsRead(table: string, columns: Option<seq<string>>, catalog: seq<FieldRow>, rows: seq<Row>)
    ensures InsertedRows(CloneEvents(table, columns, catalog, rows)) == rows
  {
    var head := CloneEvents(table, columns, catalog, rows)[..3];
    assert CloneEvents(table, columns, catalog, rows) == head + InsertEvents(table, rows);
    InsertedRowsConcat(head, InsertEvents(table, rows));
    assert !IsInsert(head[1]) by {
      assert CreateTableSql(table, ColumnDefs(catalog))[0] == 'C';
    }
    assert InsertedRows(head[2..]) == [] by {
      assert head[2..][1..] == [];
    }
    assert head[1..][1..] == head[2..];
    assert InsertedRows(head) == [];
    InsertedRowsOfLoop(table, rows);
  }

  /**
   * The order of a copy: the catalog is read, then the CREATE TABLE goes to
   * the target, then the query to the source, and only then come the
   * inserts, the k-th binding the k-th row read.
   */
  lemma CloneOrder(table: string, columns: Option<seq<string>>, catalog: seq<FieldRow>, rows: seq<Row>)
    ensures var events := CloneEvents(table, columns, catalog, rows);
            && |events| == 3 + |rows|
            && events[0] == StructureRead(table)
            && events[1] == Executed(Target, CreateTableSql(table, ColumnDefs(catalog)), [])
            && events[2] == Executed(Source, SelectSql(table, columns), [])
            && forall k :: 3 <= k < |events| ==>
                 events[k] == Executed(Target, InsertSql(table, |rows[k - 3]|), rows[k - 3])
  {
    InsertEventsAt(table, rows);
  }

  /** Exactly one CREATE TABLE is executed, and it precedes every insert. */
  lemma SingleCreateTable(table: string, columns: Option<seq<string>>, catalog: seq<FieldRow>, rows: seq<Row>)
    ensures var events := CloneEvents(table, columns, catalog, rows);
            forall k :: 0 <= k < |events| ==>
              (events[k].Executed? && "CREATE TABLE " <= events[k].sql <==> k == 1)
              && (IsInsert(events[k]) ==> 1 < k)
  {
    var events := CloneEvents(table, columns, catalog, rows);
    CloneOrder(table, columns, catalog, rows);
    forall k | 0 <= k < |events|
      ensures events[k].Executed? && "CREATE TABLE " <= events[k].sql <==> k == 1
      ensures IsInsert(events[k]) ==> 1 < k
    {
      if k == 1 {
        assert "CREATE TABLE " <= CreateTableSql(table, ColumnDefs(catalog));
        assert CreateTableSql(table, ColumnDefs(catalog))[0] == 'C';
      } else if k == 2 {
        assert SelectSql(table, columns)[0] == 'S';
      } else if k >= 3 {
        assert InsertSql(table, |rows[k - 3]|)[0] == 'I';
      }
    }
  }

  /**
   * Every insert names the table and carries exactly as many placeholders as
   * the row it binds has values (for a table name without parentheses).
   */
  lemma InsertsMatchArity(table: string, columns: Option<seq<string>>, catalog: seq<FieldRow>, rows: seq<Row>)
    requires '(' !in table
    ensures var events := CloneEvents(table, columns, catalog, rows);
            forall k :: 0 <= k < |events| && IsInsert(events[k]) ==>
              ParseInsert(events[k].sql) == Some((table, |events[k].params|))
  {
    var events := CloneEvents(table, columns, catalog, rows);
    CloneOrder(table, columns, catalog, rows);
    SingleCreateTable(table, columns, catalog, rows);
    forall k | 0 <= k < |events| && IsInsert(events[k])
      ensures ParseInsert(events[k].sql) == Some((table, |events[k].params|))
    {
      assert k >= 3 by {
        assert events[2].side == Source;
      }
      InsertRoundTrip(table, |rows[k - 3]|);
    }
  }

  /** Three single appends followed by a sequence are one append of all four. */
  lemma AppendThree<T>(s: seq<T>, a: T, b: T, c: T, t: seq<T>)
    ensures s + [a] + [b] + [c] + t == s + ([a, b, c] + t)
  {
  }

  /** Why a copy did not start: a connector was never connected (Python's AttributeError on None). */
  datatype CloneError = EngineNotCreated

  class MigrationManager {
    const sourceConnector: DatabaseConnector
    const targetConnector: DatabaseConnector

    constructor (sourceConfig: Settings, targetConfig: Settings)
      ensures fresh(sourceConnector) && fresh(targetConnector)
      ensures sourceConnector.Config() == sourceConfig && sourceConnector.engine == None
      ensures targetConnector.Config() == targetConfig && targetConnector.engine == None
    {
      sourceConnector := new DatabaseConnector(sourceConfig);
      targetConnector := new DatabaseConnector(targetConfig);
    }

    /**
     * `MigrationManager(source_config, target_config)`: builds the source
     * connector, then the target one; the first missing key of the first
     * dictionary lacking one is the error.
     */
    static method FromConfigs(sourceConfig: map<string, string>, targetConfig: map<string, string>)
      returns (r: Result<MigrationManager, ConfigError>)
      ensures r.Success? <==> ReadSettings(sourceConfig).Success? && ReadSettings(targetConfig).Success?
      ensures ReadSettings(sourceConfig).Failure? ==> r == Failure(ReadSettings(sourceConfig).error)
      ensures ReadSettings(sourceConfig).Success? && ReadSettings(targetConfig).Failure? ==>
                r == Failure(ReadSettings(targetConfig).error)
      ensures r.Success? ==>
                && fresh(r.value) && fresh(r.value.sourceConnector) && fresh(r.value.targetConnector)
                && r.value.sourceConnector.Config() == ReadSettings(sourceConfig).value
                && r.value.targetConnector.Config() == ReadSettings(targetConfig).value
                && r.value.sourceConnector.engine == None && r.value.targetConnector.engine == None
    {
      var source := ReadSettings(sourceConfig);
      if source.Failure? {
        return Failure(source.error);
      }
      var target := ReadSettings(targetConfig);
      if target.Failure? {
        return Failure(target.error);
      }
      var manager := new MigrationManager(source.value, target.value);
      return Success(manager);
    }

    /** Reads the catalog rows of `tableName` from the source; `catalog` is what the source returns. */
    method GetTableStructure(tableName: string, catalog: seq<FieldRow>, trace: Trace) returns (structure: seq<FieldRow>)
      modifies trace
      ensures structure == catalog
      ensures trace.events == old(trace.events) + [StructureRead(tableName)]
    {
      trace.ReadStructure(tableName);
      structure := catalog;
    }

    /** Executes on the target the one CREATE TABLE statement built from the catalog rows. */
    method CreateTable(tableName: string, structure: seq<FieldRow>, trace: Trace)
      modifies trace
      ensures trace.events == old(trace.events) + [Executed(Target, CreateTableSql(tableName, ColumnDefs(structure)), [])]
    {
      var columns := BuildColumnDefs(structure);
      var command := CreateTableSql(tableName, columns);
      trace.Execute(Target, command, []);
    }

    /** The row loop of `clone_database`: one insert per row, in read order. */
    method InsertRows(tableName: string, rows: seq<Row>, trace: Trace)
      modifies trace
      ensures trace.events == old(trace.events) + InsertEvents(tableName, rows)
    {
      for i := 0 to |rows|
        invariant trace.events == old(trace.events) + InsertEvents(tableName, rows[..i])
      {
        assert rows[..i + 1][..i] == rows[..i];
        var insertQuery := InsertSql(tableName, |rows[i]|);
        trace.Execute(Target, insertQuery, rows[i]);
      }
      assert rows[..|rows|] == rows;
    }

    /**
     * Copies `tableName`: fails before touching either database unless both
     * engines were created, and otherwise performs exactly the events of
     * `CloneEvents`, given what the source returns.
     */
    method CloneDatabase(tableName: string, columns: Option<seq<string>>, catalog: seq<FieldRow>,
                         rows: seq<Row>, trace: Trace) returns (outcome: Outcome<CloneError>)
      modifies trace
      ensures outcome.Pass? <==> sourceConnector.engine.Some? && targetConnector.engine.Some?
      ensures outcome.Fail? ==> trace.events == old(trace.events)
      ensures outcome.Pass? ==> trace.events == old(trace.events) + CloneEvents(tableName, columns, catalog, rows)
    {
      if sourceConnector.engine.None? || targetConnector.engine.None? {
        return Fail(EngineNotCreated);
      }
      var sourceQuery := SelectSql(tableName, columns);
      ghost var start := trace.events;
      var structure := GetTableStructure(tableName, catalog, trace);
      CreateTable(tableName, structure, trace);
      trace.Execute(Source, sourceQuery, []);
      InsertRows(tableName, rows, trace);
      AppendThree(start, StructureRead(tableName),
                  Executed(Target, CreateTableSql(tableName, ColumnDefs(catalog)), []),
                  Executed(Source, sourceQuery, []), InsertEvents(tableName, rows));
      return Pass;
    }
  }
}
