/** The SQL text the core builds: CREATE TABLE statements from a
    validated schema, the parameterised INSERT of `insert_data`, and the
    SELECT-only guard of `query_data`. */
module Statements {
  import opened Text
  import opened PyValue
  import opened SchemaValidation

  // ---------------------------------------------------------------------
  // CREATE TABLE

  function ColumnName(col: Value): string
    requires ColumnOk(col)
  {
    Get(col.fields, "name").value.s
  }

  function ColumnType(col: Value): string
    requires ColumnOk(col)
  {
    Get(col.fields, "type").value.s
  }

  /** `col.get("constraints")` is truthy. */
  predicate HasConstraints(col: Value)
    requires col.Dict?
  {
    Get(col.fields, "constraints").Some? && Truthy(Get(col.fields, "constraints").value)
  }

  /** One column definition: "name type", followed by " constraints"
      only when the column has a truthy constraints entry. */
  function ColumnDef(col: Value): (def: string)
    requires ColumnOk(col)
    ensures StartsWith(def, ColumnName(col) + " " + ColumnType(col))
    ensures !HasConstraints(col) ==> def == ColumnName(col) + " " + ColumnType(col)
    ensures HasConstraints(col) ==>
      def == ColumnName(col) + " " + ColumnType(col) + " " + Format(Get(col.fields, "constraints").value)
  {
    var base := ColumnName(col) + " " + ColumnType(col);
    var def := if HasConstraints(col) then base + " " + Format(Get(col.fields, "constraints").value) else base;
    assert def[..|base|] == base;
    def
  }

  function ColumnDefs(cols: seq<Value>): (defs: seq<string>)
    requires AllColumnsOk(cols)
    ensures |defs| == |cols|
    ensures forall j :: 0 <= j < |cols| ==> defs[j] == ColumnDef(cols[j])
  {
    seq(|cols|, j requires 0 <= j < |cols| => ColumnDef(cols[j]))
  }

  /** The statement `create_database` executes for one table. */
  function CreateTableSql(name: string, cols: seq<Value>): (sql: string)
    requires AllColumnsOk(cols)
  {
    "CREATE TABLE " + name + " (" + Join(ColumnDefs(cols), ", ") + ")"
  }

  /** A table's statement starts with its name and ends after its
      column list. */
  lemma CreateTableSqlShape(name: string, cols: seq<Value>)
    requires AllColumnsOk(cols)
    ensures StartsWith(CreateTableSql(name, cols), "CREATE TABLE " + name + " (")
    ensures EndsWith(CreateTableSql(name, cols), ")")
  {
    var sql := CreateTableSql(name, cols);
    var p := "CREATE TABLE " + name + " (";
    assert sql == p + (Join(ColumnDefs(cols), ", ") + ")");
    assert sql[..|p|] == p;
  }

  /** Column definitions of a longer column list. */
  lemma ColumnDefsAppend(cols: seq<Value>, col: Value)
    requires AllColumnsOk(cols) && ColumnOk(col)
    ensures AllColumnsOk(cols + [col])
    ensures ColumnDefs(cols + [col]) == ColumnDefs(cols) + [ColumnDef(col)]
  {
    var all := cols + [col];
    forall j | 0 <= j < |all| ensures ColumnOk(all[j]) {
      if j < |cols| { assert all[j] == cols[j]; }
    }
  }

  /** Adding a column puts its definition last, after ", ": the column
      definitions appear in the schema's order. */
  lemma CreateTableSqlAppend(name: string, cols: seq<Value>, col: Value)
    requires AllColumnsOk(cols) && ColumnOk(col) && cols != []
    ensures AllColumnsOk(cols + [col])
    ensures CreateTableSql(name, cols + [col])
         == "CREATE TABLE " + name + " (" + Join(ColumnDefs(cols), ", ") + ", " + ColumnDef(col) + ")"
  {
    ColumnDefsAppend(cols, col);
    ListAppend("CREATE TABLE " + name + " (", ColumnDefs(cols), ColumnDef(col));
  }

  /** A parenthesised list with one more item. */
  lemma ListAppend(p: string, defs: seq<string>, def: string)
    requires defs != []
    ensures p + Join(defs + [def], ", ") + ")" == p + Join(defs, ", ") + ", " + def + ")"
  {
    JoinAppend(defs, [def], ", ");
  }

  function TableName(t: Value): string
    requires TableHeaderOk(t)
  {
    Get(t.fields, "table_name").value.s
  }

  function TableColumns(t: Value): (cols: seq<Value>)
    requires TableHeaderOk(t)
    ensures |cols| > 0
  {
    ListAt(t.fields, "columns").value
  }

  /** Defining one more column appends its definition. */
  lemma ColumnDefsSnoc(cols: seq<Value>, j: nat)
    requires j < |cols| && AllColumnsOk(cols)
    ensures AllColumnsOk(cols[..j]) && AllColumnsOk(cols[..j + 1])
    ensures ColumnDefs(cols[..j + 1]) == ColumnDefs(cols[..j]) + [ColumnDef(cols[j])]
  {
    assert cols[..j + 1] == cols[..j] + [cols[j]];
  }

  /** The statement-building loop for one table: column definitions are
      collected one by one and joined with ", ". */
  method BuildCreateTable(t: Value) returns (sql: string)
    requires TableOk(t)
    ensures sql == CreateTableSql(TableName(t), TableColumns(t))
  {
    var tableName := TableName(t);
    var cols := TableColumns(t);
    var columnDefs: seq<string> := [];
    var j := 0;
    while j < |cols|
      invariant 0 <= j <= |cols|
      invariant columnDefs == ColumnDefs(cols[..j])
    {
      var col := cols[j];
      var colDef := ColumnName(col) + " " + ColumnType(col);
      if HasConstraints(col) {
        colDef := colDef + " " + Format(Get(col.fields, "constraints").value);
      }
      ColumnDefsSnoc(cols, j);
      columnDefs := columnDefs + [colDef];
      j := j + 1;
    }
    assert cols[..j] == cols;
    sql := "CREATE TABLE " + tableName + " (" + Join(columnDefs, ", ") + ")";
  }

  // ---------------------------------------------------------------------
  // INSERT

  function Repeat(s: string, n: nat): (xs: seq<string>)
    ensures |xs| == n
  {
    if n == 0 then [] else Repeat(s, n - 1) + [s]
  }

  /** `', '.join(['?' for _ in columns])` */
  function Placeholders(n: nat): string {
    Join(Repeat("?", n), ", ")
  }

  /** The statement `insert_data` prepares once, from the first row's keys. */
  function InsertSql(table: string, columns: seq<string>): string {
    "INSERT INTO " + table + " (" + Join(columns, ", ") + ") VALUES (" + Placeholders(|columns|) + ")"
  }

  /** There is exactly one `?` per column. */
  lemma {:induction false} PlaceholderCount(n: nat)
    ensures Count('?', Placeholders(n)) == n
  {
    if n > 1 {
      assert Repeat("?", n)[..n - 1] == Repeat("?", n - 1);
      PlaceholderCount(n - 1);
      CountAppend('?', Placeholders(n - 1), ", ");
      CountAppend('?', Placeholders(n - 1) + ", ", "?");
    }
  }

  lemma {:induction false} CountJoinNone(c: char, xs: seq<string>, sep: string)
    requires c !in sep && forall k :: 0 <= k < |xs| ==> c !in xs[k]
    ensures Count(c, Join(xs, sep)) == 0
  {
    if |xs| > 1 {
      var p := xs[..|xs| - 1];
      CountJoinNone(c, p, sep);
      CountAppend(c, Join(p, sep), sep);
      CountAppend(c, Join(p, sep) + sep, xs[|xs| - 1]);
    }
  }

  /** The literal `INSERT INTO ` that opens the INSERT carries no `?`
      placeholder. */
  lemma KeywordUnmarked()
    ensures Count('?', "INSERT INTO ") == 0
  {
    assert '?' !in "INSERT INTO ";
  }

  /** The literal `) VALUES (` between the column list and the
      placeholders carries no `?` placeholder. */
  lemma ValuesUnmarked()
    ensures Count('?', ") VALUES (") == 0
  {
    assert '?' !in ") VALUES (";
  }

  /** The literals ` (` and `)` around the column and placeholder lists
      carry no `?` placeholder. */
  lemma ParensUnmarked()
    ensures Count('?', " (") == 0 && Count('?', ")") == 0
  {
    assert '?' !in " (" && '?' !in ")";
  }

  /** When neither the table name nor any column name contains `?`, the
      statement has exactly as many parameter markers as there are
      columns, so each row binds one value per column. */
  lemma InsertSqlMarkers(table: string, columns: seq<string>)
    requires '?' !in table && forall k :: 0 <= k < |columns| ==> '?' !in columns[k]
    ensures Count('?', InsertSql(table, columns)) == |columns|
  {
    var a := "INSERT INTO " + table + " (";
    var b := Join(columns, ", ");
    var c := ") VALUES (";
    var d := Placeholders(|columns|);
    CountJoinNone('?', columns, ", ");
    PlaceholderCount(|columns|);
    KeywordUnmarked();
    ValuesUnmarked();
    ParensUnmarked();
    CountAppend('?', "INSERT INTO ", table);
    CountAppend('?', "INSERT INTO " + table, " (");
    CountAppend('?', a, b);
    CountAppend('?', a + b, c);
    CountAppend('?', a + b + c, d);
    CountAppend('?', a + b + c + d, ")");
  }

  // ---------------------------------------------------------------------
  // The SELECT-only guard

  /** `sql_query.strip().upper().startswith("SELECT")` */
  predicate IsSelectQuery(sql: string) {
    StartsWith(Upper(Strip(sql)), "SELECT")
  }

  /** Whitespace in front of the query does not change the verdict. */
  lemma SelectGuardIgnoresPadding(pad: string, sql: string)
    requires AllSpace(pad)
    ensures IsSelectQuery(pad + sql) == IsSelectQuery(sql)
  {
    StripPadded(pad, sql);
  }

  lemma {:induction false} UpperTrimLeft(s: string)
    ensures Upper(TrimLeft(s)) == TrimLeft(Upper(s))
  {
    if s != [] {
      assert Upper(s)[1..] == Upper(s[1..]);
      UpperTrimLeft(s[1..]);
    }
  }

  lemma {:induction false} UpperTrimRight(s: string)
    ensures Upper(TrimRight(s)) == TrimRight(Upper(s))
  {
    if s != [] {
      assert Upper(s)[..|s| - 1] == Upper(s[..|s| - 1]);
      UpperTrimRight(s[..|s| - 1]);
    }
  }

  /** The guard ignores letter case: upper-casing the query first gives
      the same verdict. */
  lemma SelectGuardIgnoresCase(sql: string)
    ensures IsSelectQuery(Upper(sql)) == IsSelectQuery(sql)
  {
    UpperTrimLeft(sql);
    UpperTrimRight(TrimLeft(sql));
    var st := Strip(sql);
    assert Strip(Upper(sql)) == Upper(st);
    assert Upper(Upper(st)) == Upper(st);
  }

  /** What the guard accepts, character by character: after the leading
      whitespace come the six letters of SELECT in either case. */
  lemma SelectGuardLetters(sql: string)
    ensures IsSelectQuery(sql) <==>
      var st := Strip(sql);
      |st| >= 6 && forall k :: 0 <= k < 6 ==> AsciiUpper(st[k]) == "SELECT"[k]
  {
    var st := Strip(sql);
    if |st| >= 6 && forall k :: 0 <= k < 6 ==> AsciiUpper(st[k]) == "SELECT"[k] {
      assert Upper(st)[..6] == "SELECT";
    }
  }
}
