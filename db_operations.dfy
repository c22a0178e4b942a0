/** The database operations: creating a database from a validated
    schema, inserting rows, running SELECT queries and the two-step
    delete. The storage directory is a set of existing `.db` file names;
    SQLite's answers to statements are parameters. */
module DbOperations {
  import opened Wrappers
  import opened Text
  import opened PyValue
  import opened DbPath
  import opened SchemaValidation
  import opened Metadata
  import opened Statements
  import opened Storage

  /** The exceptions the operations raise. */
  datatype DbError =
    | NotFound(database: string)                    // FileNotFoundError
    | AlreadyExists(database: string, path: string) // FileExistsError
    | InvalidSchema(message: string)                // ValueError from validation
    | NotDictOrList                                 // ValueError: data must be a dict or list of dicts
    | EmptyData                                     // ValueError: data cannot be empty
    | RowNotDict(row: nat)                          // AttributeError from row.keys()
    | ColumnMismatch(row: nat, expected: seq<string>, got: seq<string>) // ValueError
    | IntegrityViolation(message: string)           // ValueError wrapping sqlite3.IntegrityError
    | NotSelect                                     // ValueError: only SELECT queries are allowed
    | ExecutionFailed(message: string)              // any other engine error
    | DeletionFailed(message: string)               // RuntimeError

  // ---------------------------------------------------------------------
  // create_database

  /** The engine's answer to one CREATE TABLE statement, given the names
      of the tables this call has already created. */
  type DdlEngine = (seq<string>, string) -> EngineOutcome

  datatype Created = Created(
    message: string,
    dbPath: string,
    tables: seq<string>,
    statements: seq<string>,
    metadata: map<string, Entry>)

  function SchemaTables(schema: seq<Field>): (tables: seq<Value>)
    requires SchemaOk(schema)
    ensures |tables| > 0 && AllTablesOk(tables)
  {
    ListAt(schema, "tables").value
  }

  /** `[table["table_name"] for table in schema["tables"]]` */
  function TableNames(tables: seq<Value>): (names: seq<string>)
    requires AllTablesOk(tables)
    ensures |names| == |tables|
    ensures forall i :: 0 <= i < |tables| ==> names[i] == TableName(tables[i])
  {
    seq(|tables|, i requires 0 <= i < |tables| => TableName(tables[i]))
  }

  /** The CREATE TABLE statements of a schema, one per table, in order. */
  function CreateStatements(tables: seq<Value>): (stmts: seq<string>)
    requires AllTablesOk(tables)
    ensures |stmts| == |tables|
    ensures forall i :: 0 <= i < |tables| ==> stmts[i] == CreateTableSql(TableName(tables[i]), TableColumns(tables[i]))
  {
    seq(|tables|, i requires 0 <= i < |tables| => CreateTableSql(TableName(tables[i]), TableColumns(tables[i])))
  }

  /** The engine accepts every statement, each after the ones before it. */
  predicate DdlAccepted(ddl: DdlEngine, names: seq<string>, stmts: seq<string>)
    requires |names| == |stmts|
  {
    forall k :: 0 <= k < |stmts| ==> ddl(names[..k], stmts[k]).Accepted?
  }

  /** Accepting one more statement after all earlier ones extends the run. */
  lemma DdlAcceptedAppend(ddl: DdlEngine, names: seq<string>, stmts: seq<string>, name: string, stmt: string)
    requires |names| == |stmts| && DdlAccepted(ddl, names, stmts)
    requires ddl(names, stmt).Accepted?
    ensures DdlAccepted(ddl, names + [name], stmts + [stmt])
  {
    forall k | 0 <= k < |stmts| + 1
      ensures ddl((names + [name])[..k], (stmts + [stmt])[k]).Accepted?
    {
      if k < |stmts| {
        assert (names + [name])[..k] == names[..k];
      } else {
        assert (names + [name])[..k] == names;
      }
    }
  }

  /** The k-th statement is the first one the engine rejects, with this message. */
  predicate DdlRejectedAt(ddl: DdlEngine, names: seq<string>, stmts: seq<string>, k: nat, message: string)
    requires |names| == |stmts|
  {
    && k < |stmts|
    && DdlAccepted(ddl, names[..k], stmts[..k])
    && !ddl(names[..k], stmts[k]).Accepted?
    && ddl(names[..k], stmts[k]).message == message
  }

  lemma PrefixSnoc<T>(xs: seq<T>, i: nat)
    requires i < |xs|
    ensures xs[..i + 1] == xs[..i] + [xs[i]]
  {
  }

  /** The CREATE TABLE loop of `create_database`: builds each table's
      statement and runs it, stopping at the first one the engine
      rejects with that error's message. */
  method CreateTables(tables: seq<Value>, ddl: DdlEngine) returns (r: Result<(seq<string>, seq<string>), string>)
    requires AllTablesOk(tables)
    ensures r.Ok? <==> DdlAccepted(ddl, TableNames(tables), CreateStatements(tables))
    ensures r.Ok? ==> r.value == (TableNames(tables), CreateStatements(tables))
    ensures r.Err? ==> exists k :: DdlRejectedAt(ddl, TableNames(tables), CreateStatements(tables), k, r.error)
  {
    var tableNames := TableNames(tables);
    var createdTables: seq<string> := [];
    var statements: seq<string> := [];
    var i := 0;
    while i < |tables|
      invariant 0 <= i <= |tables|
      invariant createdTables == tableNames[..i]
      invariant statements == CreateStatements(tables)[..i]
      invariant DdlAccepted(ddl, createdTables, statements)
    {
      var t := tables[i];
      var sql := BuildCreateTable(t);
      var outcome := ddl(createdTables, sql);
      if !outcome.Accepted? {
        assert ddl(tableNames[..i], CreateStatements(tables)[i]) == outcome;
        assert DdlRejectedAt(ddl, tableNames, CreateStatements(tables), i, outcome.message);
        return Err(outcome.message);
      }
      DdlAcceptedAppend(ddl, createdTables, statements, TableName(t), sql);
      PrefixSnoc(tableNames, i);
      PrefixSnoc(CreateStatements(tables), i);
      createdTables := createdTables + [TableName(t)];
      statements := statements + [sql];
      i := i + 1;
    }
    assert createdTables == tableNames && statements == CreateStatements(tables);
    r := Ok((createdTables, statements));
  }

  /** The table-name list as the JSON layer receives it. */
  function NamesValue(names: seq<string>): Value {
    List(seq(|names|, i requires 0 <= i < |names| => Str(names[i])))
  }

  /** The `_metadata` rows a new database starts with: the three keys
      written one after another at the same clock reading. */
  function InitialMetadata(description: string, schemaJson: string, tablesJson: string, now: string): map<string, Entry> {
    map[
      "database_description" := Entry(description, now, now),
      "schema" := Entry(schemaJson, now, now),
      "tables" := Entry(tablesJson, now, now)]
  }

  /** Three upserts of distinct keys into an empty table give exactly the
      three first-write entries. */
  lemma InitialMetadataWrites(description: string, schemaJson: string, tablesJson: string, now: string)
    ensures Upserted(Upserted(Upserted(map[], "database_description", description, now), "schema", schemaJson, now), "tables", tablesJson, now)
         == InitialMetadata(description, schemaJson, tablesJson, now)
  {
  }

  /** The three `_update_metadata` calls of `create_database`, on the
      fresh `_metadata` table of the new file. */
  method WriteInitialMetadata(description: string, schemaJson: string, tablesJson: string, now: string)
    returns (entries: map<string, Entry>)
    ensures entries == InitialMetadata(description, schemaJson, tablesJson, now)
  {
    var meta := new MetadataTable();
    meta.Update("database_description", description, now);
    meta.Update("schema", schemaJson, now);
    meta.Update("tables", tablesJson, now);
    entries := meta.entries;
    InitialMetadataWrites(description, schemaJson, tablesJson, now);
  }

  function CreatedMessage(databaseName: string, n: nat): string {
    "Database '" + databaseName + "' created successfully with " + Decimal(n) + " table(s)"
  }

  // ---------------------------------------------------------------------
  // insert_data

  datatype InsertReport = InsertReport(rowsInserted: nat, tableName: string, database: string)

  /** A dict becomes a one-element list; anything but a dict or a
      non-empty list is refused. */
  function Normalize(data: Value): (r: Result<seq<Value>, DbError>)
    ensures r.Ok? <==> data.Dict? || (data.List? && data.items != [])
    ensures r.Ok? ==> |r.value| > 0
    ensures data.Dict? ==> r == Ok([data])
    ensures data.List? && data.items != [] ==> r == Ok(data.items)
    ensures r.Err? ==> r.error == if data.List? then EmptyData else NotDictOrList
  {
    if data.Dict? then Ok([data])
    else if !data.List? then Err(NotDictOrList)
    else if |data.items| == 0 then Err(EmptyData)
    else Ok(data.items)
  }

  /** `set(row.keys()) == set(columns)` for a dict row. */
  predicate SameColumns(row: Value, columns: seq<string>) {
    row.Dict? && SetOf(Keys(row.fields)) == SetOf(columns)
  }

  /** Every row is a dict with the first row's key set. */
  predicate RowsMatch(rows: seq<Value>) {
    && |rows| > 0
    && rows[0].Dict?
    && forall k :: 0 <= k < |rows| ==> SameColumns(rows[k], Keys(rows[0].fields))
  }

  /** `row[col]`; defaults to None for a key the row lacks, which the
      key-set check rules out before any value is bound. */
  function ValueFor(row: seq<Field>, col: string): Value {
    match Get(row, col)
    case Some(v) => v
    case None => Null
  }

  /** `[row[col] for col in columns]` */
  function ColumnValues(columns: seq<string>, row: seq<Field>): (vs: seq<Value>)
    ensures |vs| == |columns|
  {
    seq(|columns|, k requires 0 <= k < |columns| => ValueFor(row, columns[k]))
  }

  /** The parameters of one INSERT, paired with the columns they fill. */
  function Bind(columns: seq<string>, row: seq<Field>): (b: Row)
    ensures b.columns == columns && |b.values| == |columns|
  {
    Row(columns, ColumnValues(columns, row))
  }

  /** With the row's key set equal to the columns', the k-th bound value
      is the row's own value for the k-th column. */
  lemma BindValues(columns: seq<string>, row: seq<Field>)
    requires SetOf(Keys(row)) == SetOf(columns)
    ensures forall k :: 0 <= k < |columns| ==> Get(row, columns[k]) == Some(Bind(columns, row).values[k])
  {
    forall k | 0 <= k < |columns|
      ensures Get(row, columns[k]) == Some(Bind(columns, row).values[k])
    {
      assert columns[k] in SetOf(columns);
      GetPresent(row, columns[k]);
    }
  }

  /** The entries of a dict row; a row that is not a dict has none. */
  function FieldsOf(row: Value): seq<Field> {
    if row.Dict? then row.fields else []
  }

  /** The parameter lists of all rows, in row order. */
  function BindAll(columns: seq<string>, rows: seq<Value>): (bound: seq<Row>)
    ensures |bound| == |rows|
    decreases |rows|
  {
    if rows == [] then []
    else BindAll(columns, rows[..|rows| - 1]) + [Bind(columns, FieldsOf(rows[|rows| - 1]))]
  }

  /** The k-th bound row holds the k-th data row's values in column order. */
  lemma {:induction false} BindAllAt(columns: seq<string>, rows: seq<Value>, k: nat)
    requires k < |rows|
    ensures BindAll(columns, rows)[k] == Bind(columns, FieldsOf(rows[k]))
    decreases |rows|
  {
    var n := |rows| - 1;
    if k < n {
      assert rows[..n][k] == rows[k];
      BindAllAt(columns, rows[..n], k);
    }
  }

  /** Binding a prefix of the rows gives the prefix of the bound rows. */
  lemma {:induction false} BindAllPrefix(columns: seq<string>, rows: seq<Value>, k: nat)
    requires k <= |rows|
    ensures BindAll(columns, rows[..k]) == BindAll(columns, rows)[..k]
    decreases |rows|
  {
    if k < |rows| {
      var n := |rows| - 1;
      assert rows[..n][..k] == rows[..k];
      BindAllPrefix(columns, rows[..n], k);
    } else {
      assert rows[..k] == rows;
    }
  }

  const IntegrityPrefix := "Data integrity error: "

  /** The ValueError text for a constraint violation: the fixed prefix
      followed by the engine's own message, which can be read back. */
  function IntegrityMessage(detail: string): (m: string)
    ensures StartsWith(m, IntegrityPrefix) && m[|IntegrityPrefix|..] == detail
  {
    IntegrityPrefix + detail
  }

  lemma FullPrefix<T>(xs: seq<T>)
    ensures xs[..|xs|] == xs
  {
  }

  /** Every row of the batch passes the key-set check. */
  predicate AllSameColumns(rows: seq<Value>, columns: seq<string>) {
    forall j :: 0 <= j < |rows| ==> SameColumns(rows[j], columns)
  }

  lemma AllSameColumnsSnoc(rows: seq<Value>, columns: seq<string>, k: nat)
    requires k < |rows| && AllSameColumns(rows[..k], columns) && SameColumns(rows[k], columns)
    ensures AllSameColumns(rows[..k + 1], columns)
  {
    assert rows[..k + 1] == rows[..k] + [rows[k]];
  }

  lemma AllSameColumnsFull(rows: seq<Value>)
    requires |rows| > 0 && rows[0].Dict? && AllSameColumns(rows, Keys(rows[0].fields))
    ensures RowsMatch(rows)
  {
  }

  /** The exception a rejected INSERT raises: an integrity violation
      becomes the "Data integrity error" ValueError, any other engine error
      is re-raised with its own message. */
  function EngineFailure(o: EngineOutcome): (e: DbError)
    requires !o.Accepted?
    ensures e.IntegrityViolation? <==> o.IntegrityError?
    ensures o.IntegrityError? ==> StartsWith(e.message, IntegrityPrefix) && e.message[|IntegrityPrefix|..] == o.message
    ensures o.OperationalError? ==> e == ExecutionFailed(o.message)
  {
    if o.IntegrityError? then IntegrityViolation(IntegrityMessage(o.message)) else ExecutionFailed(o.message)
  }

  /** What one pass of the row loop raises, if anything, when the
      connection already sees `seen`: a row that is not a dict, a row
      whose key set differs from the columns, or the engine's rejection
      of the row's INSERT. */
  function RowFailure(engine: InsertEngine, seen: seq<Row>, sql: string, columns: seq<string>, row: Value, k: nat): Option<DbError> {
    if !row.Dict? then Some(RowNotDict(k))
    else if !SameColumns(row, columns) then Some(ColumnMismatch(k, columns, Keys(row.fields)))
    else
      var o := engine(seen, sql, Bind(columns, row.fields).values);
      if o.Accepted? then None else Some(EngineFailure(o))
  }

  /** The INSERT's columns: the first row's keys (none when it is not a dict). */
  function FirstColumns(rows: seq<Value>): seq<string>
    requires |rows| > 0
  {
    Keys(FieldsOf(rows[0]))
  }

  /** The batch stops at row k with this failure: every row before k has
      the INSERT's key set and was accepted, and row k raised `failure`. */
  predicate FailedAt(engine: InsertEngine, base: seq<Row>, tableName: string, rows: seq<Value>, k: nat, failure: Option<DbError>)
    requires |rows| > 0
  {
    var columns := FirstColumns(rows);
    var sql := InsertSql(tableName, columns);
    && k < |rows|
    && AllSameColumns(rows[..k], columns)
    && AllAccepted(engine, base, sql, BindAll(columns, rows[..k]))
    && failure == RowFailure(engine, base + BindAll(columns, rows[..k]), sql, columns, rows[k], k)
  }

  /** What a failure at row k says about the data: a key-set mismatch is
      reported against the first row's keys, an integrity violation
      carries the fixed prefix. */
  lemma FailureFacts(engine: InsertEngine, base: seq<Row>, tableName: string, rows: seq<Value>, k: nat, e: DbError)
    requires |rows| > 0 && FailedAt(engine, base, tableName, rows, k, Some(e))
    ensures (e.RowNotDict? || e.ColumnMismatch?) ==> e.row == k
    ensures e.RowNotDict? <==> !rows[k].Dict?
    ensures e.ColumnMismatch? ==>
      && rows[0].Dict? && rows[k].Dict? && !SameColumns(rows[k], Keys(rows[0].fields))
      && e.expected == Keys(rows[0].fields) && e.got == Keys(rows[k].fields)
    ensures e.IntegrityViolation? ==> StartsWith(e.message, IntegrityPrefix)
    ensures e.RowNotDict? || e.ColumnMismatch? || e.IntegrityViolation? || e.ExecutionFailed?
  {
    if k > 0 {
      assert rows[..k][0] == rows[0];
    }
  }

  /** A row that comes before a row the whole batch got past did not fail:
      so when row k fails, every row before it passed, and k is the first
      failing row. */
  lemma RowFailureFirst(engine: InsertEngine, base: seq<Row>, sql: string, columns: seq<string>, rows: seq<Value>, k: nat, k': nat)
    requires k < k' <= |rows|
    requires AllSameColumns(rows[..k'], columns)
    requires AllAccepted(engine, base, sql, BindAll(columns, rows[..k']))
    ensures RowFailure(engine, base + BindAll(columns, rows[..k]), sql, columns, rows[k], k).None?
  {
    assert rows[..k'][k] == rows[k];
    assert SameColumns(rows[k], columns);
    assert rows[..k'][..k + 1] == rows[..k + 1];
    BindAllPrefix(columns, rows[..k'], k + 1);
    AllAcceptedPrefix(engine, base, sql, BindAll(columns, rows[..k']), k + 1);
    BindAllSnoc(columns, rows, k);
    var done := BindAll(columns, rows[..k]);
    var row := Bind(columns, rows[k].fields);
    assert (done + [row])[..|done|] == done;
  }

  /** The body of the `try` in `insert_data`: derives the columns and
      the statement from the first row and executes every row in turn on
      the connection, rolling back at the first failure. Returns the
      error the call then raises, or None with every row pending. */
  method ExecuteRows(t: Table, tableName: string, rows: seq<Value>, engine: InsertEngine) returns (failure: Option<DbError>)
    requires |rows| > 0 && t.pending == []
    modifies t
    ensures t.committed == old(t.committed)
    ensures failure.None? <==> RowsMatch(rows) && AllAccepted(engine, old(t.committed), InsertSql(tableName, InsertColumns(rows)), BindAll(InsertColumns(rows), rows))
    ensures failure.None? ==> RowsMatch(rows) && t.pending == BindAll(InsertColumns(rows), rows)
    ensures failure.Some? ==> t.pending == []
    ensures failure.Some? ==> exists k :: FailedAt(engine, old(t.committed), tableName, rows, k, failure)
  {
    ghost var base := t.committed;
    // data[0].keys() raises for a row that is not a dict
    if !rows[0].Dict? {
      t.Rollback();
      failure := Some(RowNotDict(0));
      assert rows[..0] == [];
      assert FailedAt(engine, base, tableName, rows, 0, failure);
      return;
    }
    var columns := Keys(rows[0].fields);
    assert columns == FirstColumns(rows);
    var sql := InsertSql(tableName, columns);
    var k := 0;
    while k < |rows|
      invariant 0 <= k <= |rows|
      invariant t.committed == base
      invariant AllSameColumns(rows[..k], columns)
      invariant t.pending == BindAll(columns, rows[..k])
      invariant AllAccepted(engine, base, sql, t.pending)
    {
      failure := InsertRow(t, sql, columns, rows, k, engine);
      if failure.Some? {
        BatchFails(engine, base, sql, rows, k);
        assert FailedAt(engine, base, tableName, rows, k, failure);
        return;
      }
      AllSameColumnsSnoc(rows, columns, k);
      k := k + 1;
    }
    FullPrefix(rows);
    AllSameColumnsFull(rows);
    failure := None;
  }

  /** One pass of the row loop in `insert_data`: the key-set check, then
      the execution of the row's INSERT; any failure rolls back. */
  method InsertRow(t: Table, sql: string, columns: seq<string>, rows: seq<Value>, k: nat, engine: InsertEngine)
    returns (failure: Option<DbError>)
    requires k < |rows|
    requires t.pending == BindAll(columns, rows[..k])
    requires AllAccepted(engine, t.committed, sql, t.pending)
    modifies t
    ensures t.committed == old(t.committed)
    ensures failure.None? ==>
      && SameColumns(rows[k], columns)
      && t.pending == BindAll(columns, rows[..k + 1])
      && AllAccepted(engine, t.committed, sql, t.pending)
    ensures failure.Some? ==>
      && t.pending == []
      && (!SameColumns(rows[k], columns) || !AllAccepted(engine, t.committed, sql, BindAll(columns, rows[..k + 1])))
    ensures failure == RowFailure(engine, old(t.committed) + old(t.pending), sql, columns, rows[k], k)
  {
    var row := rows[k];
    if !row.Dict? {
      t.Rollback();
      return Some(RowNotDict(k));
    }
    if !SameColumns(row, columns) {
      t.Rollback();
      return Some(ColumnMismatch(k, columns, Keys(row.fields)));
    }
    var bound := Bind(columns, row.fields);
    ghost var done := t.pending;
    var outcome := t.Execute(sql, bound, engine);
    BindAllSnoc(columns, rows, k);
    if !outcome.Accepted? {
      t.Rollback();
      AllAcceptedLast(engine, t.committed, sql, done, bound);
      if outcome.IntegrityError? {
        return Some(IntegrityViolation(IntegrityMessage(outcome.message)));
      }
      return Some(ExecutionFailed(outcome.message));
    }
    AllAcceptedSnoc(engine, t.committed, sql, done, bound);
    failure := None;
  }

  /** A failure at row k, by key set or by the engine, means the whole
      batch does not go through. */
  lemma BatchFails(engine: InsertEngine, base: seq<Row>, sql: string, rows: seq<Value>, k: nat)
    requires 0 < |rows| && k < |rows| && rows[0].Dict?
    requires !SameColumns(rows[k], Keys(rows[0].fields)) || !AllAccepted(engine, base, sql, BindAll(Keys(rows[0].fields), rows[..k + 1]))
    ensures !(RowsMatch(rows) && AllAccepted(engine, base, sql, BindAll(Keys(rows[0].fields), rows)))
  {
    var columns := Keys(rows[0].fields);
    if RowsMatch(rows) && AllAccepted(engine, base, sql, BindAll(columns, rows)) {
      BindAllPrefix(columns, rows, k + 1);
      AllAcceptedPrefix(engine, base, sql, BindAll(columns, rows), k + 1);
    }
  }

  /** Binding one more row appends its bound values. */
  lemma BindAllSnoc(columns: seq<string>, rows: seq<Value>, k: nat)
    requires k < |rows| && rows[k].Dict?
    ensures BindAll(columns, rows[..k + 1]) == BindAll(columns, rows[..k]) + [Bind(columns, rows[k].fields)]
  {
    assert rows[..k + 1][..k] == rows[..k];
  }

  /** The columns of the INSERT: the first row's keys, in order. */
  function InsertColumns(rows: seq<Value>): seq<string>
    requires RowsMatch(rows)
  {
    Keys(rows[0].fields)
  }

  /** The whole insert goes through: the data normalises, every row has
      the first row's keys, and the engine accepts all the rows in order. */
  predicate InsertSucceeds(data: Value, committed: seq<Row>, tableName: string, engine: InsertEngine) {
    && Normalize(data).Ok?
    && RowsMatch(Normalize(data).value)
    && var rows := Normalize(data).value;
       var columns := InsertColumns(rows);
       AllAccepted(engine, committed, InsertSql(tableName, columns), BindAll(columns, rows))
  }

  // ---------------------------------------------------------------------
  // query_data

  /** What executing a query yields: the cursor's column names (absent
      when the statement describes no columns) and the fetched rows, or
      an engine error. */
  datatype QueryOutcome = QueryRows(description: Option<seq<string>>, rows: seq<seq<Value>>) | QueryFailed(message: string)

  type QueryEngine = string -> QueryOutcome

  datatype QueryReport = QueryReport(columns: seq<string>, rows: seq<seq<Field>>, rowCount: nat)

  function ColumnsOf(description: Option<seq<string>>): seq<string> {
    match description
    case Some(cols) => cols
    case None => []
  }

  /** `[dict(zip(columns, row)) for row in rows]` */
  method ShapeRows(columns: seq<string>, fetched: seq<seq<Value>>) returns (result: seq<seq<Field>>)
    ensures |result| == |fetched|
    ensures forall i :: 0 <= i < |fetched| ==> result[i] == ZipDict(columns, fetched[i])
  {
    result := [];
    var i := 0;
    while i < |fetched|
      invariant 0 <= i <= |fetched|
      invariant |result| == i
      invariant forall j :: 0 <= j < i ==> result[j] == ZipDict(columns, fetched[j])
    {
      result := result + [ZipDict(columns, fetched[i])];
      i := i + 1;
    }
  }

  // ---------------------------------------------------------------------
  // delete_database

  datatype DeleteStatus = ConfirmationRequired(message: string) | Deleted(message: string, deletedFile: string)

  function ConfirmMessage(databaseName: string): string {
    "データベース '" + databaseName + "' を削除します。この操作は取り消せません。\n"
    + "削除するには confirm=true を指定してください。"
  }

  function DeletedMessage(databaseName: string): string {
    "データベース '" + databaseName + "' を削除しました。"
  }

  /** Removing a file just added restores the directory. */
  lemma AddThenRemove(s: set<string>, x: string)
    requires x !in s
    ensures (s + {x}) - {x} == s
  {
  }

  /** The storage directory: the `.db` files that exist in it. */
  class Directory {
    const root: string
    var files: set<string>

    constructor (root: string, files: set<string>)
      ensures this.root == root && this.files == files
    {
      this.root := root;
      this.files := files;
    }

    /** `create_database`: validation and the existence check come before
        the file is created; a failing CREATE TABLE removes the new file
        again, so a failed call leaves the directory as it was. */
    method CreateDatabase(databaseName: string, schema: seq<Field>, now: string, dumps: Value -> string, ddl: DdlEngine)
      returns (r: Result<Created, DbError>)
      modifies this
      ensures !SchemaOk(schema) ==> r == Err(InvalidSchema(ValidateSchema(schema).1))
      ensures SchemaOk(schema) && DbFileName(databaseName) in old(files) ==>
                r == Err(AlreadyExists(databaseName, PathOf(root, databaseName)))
      ensures r.Err? ==> files == old(files)
      ensures SchemaOk(schema) && DbFileName(databaseName) !in old(files) && r.Err? ==>
        var tables := SchemaTables(schema);
        && r.error.ExecutionFailed?
        && exists k :: DdlRejectedAt(ddl, TableNames(tables), CreateStatements(tables), k, r.error.message)
      ensures r.Ok? <==>
        && SchemaOk(schema)
        && DbFileName(databaseName) !in old(files)
        && DdlAccepted(ddl, TableNames(SchemaTables(schema)), CreateStatements(SchemaTables(schema)))
      ensures r.Ok? ==> SchemaOk(schema)
      ensures r.Ok? ==>
        var tables := SchemaTables(schema);
        && files == old(files) + {DbFileName(databaseName)}
        && r.value.tables == TableNames(tables)
        && r.value.statements == CreateStatements(tables)
        && r.value.dbPath == PathOf(root, databaseName)
        && r.value.message == CreatedMessage(databaseName, |tables|)
        && r.value.metadata == InitialMetadata(
             Get(schema, "database_description").value.s, dumps(Dict(schema)), dumps(NamesValue(TableNames(tables))), now)
    {
      var validation := ValidateSchema(schema);
      if !validation.0 {
        return Err(InvalidSchema(validation.1));
      }
      var file := DbFileName(databaseName);
      var path := PathOf(root, databaseName);
      if file in files {
        return Err(AlreadyExists(databaseName, path));
      }
      // sqlite3.connect creates the file
      files := files + {file};
      var tables := ListAt(schema, "tables").value;
      var metadata := WriteInitialMetadata(
        Get(schema, "database_description").value.s, dumps(Dict(schema)), dumps(NamesValue(TableNames(tables))), now);

      var created := CreateTables(tables, ddl);
      if created.Err? {
        assert tables == SchemaTables(schema);
        ghost var k :| DdlRejectedAt(ddl, TableNames(tables), CreateStatements(tables), k, created.error);
        // close the connection, delete the new file and re-raise
        AddThenRemove(old(files), file);
        files := files - {file};
        return Err(ExecutionFailed(created.error));
      }
      var (createdTables, statements) := created.value;
      r := Ok(Created(CreatedMessage(databaseName, |createdTables|), path, createdTables, statements, metadata));
    }

    /** `insert_data` into one table of an existing database. The data is
        checked before a connection is opened; the column order comes
        from the first row; any failure rolls back every row of the call. */
    method InsertData(databaseName: string, tableName: string, data: Value, t: Table, engine: InsertEngine)
      returns (r: Result<InsertReport, DbError>)
      requires t.pending == []
      modifies t
      ensures DbFileName(databaseName) !in files ==> r == Err(NotFound(databaseName))
      ensures DbFileName(databaseName) in files && Normalize(data).Err? ==> r == Err(Normalize(data).error)
      ensures r.Err? ==> t.committed == old(t.committed) && t.pending == []
      ensures r.Ok? <==> DbFileName(databaseName) in files && InsertSucceeds(data, old(t.committed), tableName, engine)
      ensures r.Ok? ==> InsertSucceeds(data, old(t.committed), tableName, engine)
      ensures r.Ok? ==>
        var rows := Normalize(data).value;
        && r.value == InsertReport(|rows|, tableName, databaseName)
        && t.committed == old(t.committed) + BindAll(InsertColumns(rows), rows)
        && t.pending == []
      ensures r.Err? && r.error.ColumnMismatch? ==>
        var rows := Normalize(data).value;
        && Normalize(data).Ok? && r.error.row < |rows| && rows[0].Dict? && rows[r.error.row].Dict?
        && !SameColumns(rows[r.error.row], Keys(rows[0].fields))
      ensures r.Err? && r.error.IntegrityViolation? ==> StartsWith(r.error.message, IntegrityPrefix)
      ensures r.Err? && DbFileName(databaseName) in files && Normalize(data).Ok? ==>
        exists k :: FailedAt(engine, old(t.committed), tableName, Normalize(data).value, k, Some(r.error))
    {
      if DbFileName(databaseName) !in files {
        return Err(NotFound(databaseName));
      }
      var normalized := Normalize(data);
      if normalized.Err? {
        return Err(normalized.error);
      }
      var rows := normalized.value;
      var failure := ExecuteRows(t, tableName, rows, engine);
      if failure.Some? {
        ghost var k :| FailedAt(engine, old(t.committed), tableName, rows, k, failure);
        FailureFacts(engine, old(t.committed), tableName, rows, k, failure.value);
        return Err(failure.value);
      }
      t.Commit();
      var rowsInserted := |rows|;
      r := Ok(InsertReport(rowsInserted, tableName, databaseName));
    }

    /** `query_data`: the file must exist and the text must pass the
        SELECT-only guard before any connection is made; each fetched row
        becomes a dict from column names to values. */
    method QueryData(databaseName: string, sqlQuery: string, engine: QueryEngine)
      returns (r: Result<QueryReport, DbError>)
      ensures DbFileName(databaseName) !in files ==> r == Err(NotFound(databaseName))
      ensures DbFileName(databaseName) in files && !IsSelectQuery(sqlQuery) ==> r == Err(NotSelect)
      ensures r.Ok? <==> DbFileName(databaseName) in files && IsSelectQuery(sqlQuery) && engine(sqlQuery).QueryRows?
      ensures r.Ok? ==>
        var fetched := engine(sqlQuery);
        && r.value.columns == ColumnsOf(fetched.description)
        && r.value.rowCount == |r.value.rows| == |fetched.rows|
        && forall i :: 0 <= i < |fetched.rows| ==> r.value.rows[i] == ZipDict(r.value.columns, fetched.rows[i])
      ensures r.Err? && engine(sqlQuery).QueryFailed? && DbFileName(databaseName) in files && IsSelectQuery(sqlQuery) ==>
        r == Err(ExecutionFailed("Query execution failed: " + engine(sqlQuery).message))
    {
      if DbFileName(databaseName) !in files {
        return Err(NotFound(databaseName));
      }
      if !IsSelectQuery(sqlQuery) {
        return Err(NotSelect);
      }
      var outcome := engine(sqlQuery);
      if outcome.QueryFailed? {
        return Err(ExecutionFailed("Query execution failed: " + outcome.message));
      }
      var columns := ColumnsOf(outcome.description);
      var result := ShapeRows(columns, outcome.rows);
      r := Ok(QueryReport(columns, result, |result|));
    }

    /** `delete_database`: without confirmation only reports what would be
        deleted; with it, removes the file. `unlinkError` is the error the
        file system raises on removal, if any. */
    method DeleteDatabase(databaseName: string, confirm: bool, unlinkError: Option<string>)
      returns (r: Result<DeleteStatus, DbError>)
      modifies this
      ensures DbFileName(databaseName) !in old(files) ==> r == Err(NotFound(databaseName))
      ensures DbFileName(databaseName) in old(files) && !confirm ==>
                r == Ok(ConfirmationRequired(ConfirmMessage(databaseName)))
      ensures DbFileName(databaseName) in old(files) && confirm && unlinkError.None? ==>
                r == Ok(Deleted(DeletedMessage(databaseName), PathOf(root, databaseName)))
      ensures DbFileName(databaseName) in old(files) && confirm && unlinkError.Some? ==>
                r == Err(DeletionFailed("Failed to delete database: " + unlinkError.value))
      ensures !confirm ==> files == old(files)
      ensures files == if r.Ok? && r.value.Deleted? then old(files) - {DbFileName(databaseName)} else old(files)
    {
      var file := DbFileName(databaseName);
      if file !in files {
        return Err(NotFound(databaseName));
      }
      if !confirm {
        return Ok(ConfirmationRequired(ConfirmMessage(databaseName)));
      }
      if unlinkError.Some? {
        return Err(DeletionFailed("Failed to delete database: " + unlinkError.value));
      }
      files := files - {file};
      r := Ok(Deleted(DeletedMessage(databaseName), PathOf(root, databaseName)));
    }
  }
}
