/** The metadata-mandatory schema validator: a database needs a
    description, at least one table, and every table and every column
    needs a name and a description of at least five characters (after
    stripping whitespace). Checks run in a fixed order and the first
    failing one decides the message. */
module SchemaValidation {
  import opened Wrappers
  import opened Text
  import opened PyValue

  const MinDescriptionLength: nat := 5

  /** One constructor per failing check, in the order the checks run.
      Indices are 0-based; messages show them 1-based. */
  datatype SchemaError =
    | MissingDatabaseDescription
    | InvalidDatabaseDescription
    | TablesNotList
    | NoTables
    | TableNotDict(table: nat)
    | MissingTableName(table: nat)
    | InvalidTableName(table: nat)
    | MissingTableDescription(table: nat, tableName: string)
    | InvalidTableDescription(table: nat, tableName: string)
    | ColumnsNotList(table: nat, tableName: string)
    | NoColumns(table: nat, tableName: string)
    | ColumnNotDict(table: nat, tableName: string, column: nat)
    | InvalidColumnName(table: nat, tableName: string, column: nat)
    | InvalidColumnType(table: nat, tableName: string, column: nat, columnName: string)
    | MissingColumnDescription(table: nat, tableName: string, column: nat, columnName: string)
    | InvalidColumnDescription(table: nat, tableName: string, column: nat, columnName: string)
  {
    /** The error is about one entry of the tables list. */
    predicate IsTableLevel() {
      !(MissingDatabaseDescription? || InvalidDatabaseDescription? || TablesNotList? || NoTables?)
    }

    /** The error is about one column of one table. */
    predicate IsColumnLevel() {
      ColumnNotDict? || InvalidColumnName? || InvalidColumnType?
      || MissingColumnDescription? || InvalidColumnDescription?
    }
  }

  // ---------------------------------------------------------------------
  // What a valid schema is, stated declaratively

  /** isinstance(v, str) and len(v.strip()) >= 5 */
  predicate IsDescriptionText(v: Value) {
    v.Str? && |Strip(v.s)| >= MinDescriptionLength
  }

  /** isinstance(v, str) and v.strip() is not empty */
  predicate IsNonBlankText(v: Value) {
    v.Str? && Strip(v.s) != ""
  }

  predicate HasDescription(d: seq<Field>, key: string) {
    Get(d, key).Some? && IsDescriptionText(Get(d, key).value)
  }

  predicate HasNonBlank(d: seq<Field>, key: string) {
    Get(d, key).Some? && IsNonBlankText(Get(d, key).value)
  }

  /** d[key] when it is present and a list. */
  function ListAt(d: seq<Field>, key: string): Option<seq<Value>> {
    var v := Get(d, key);
    if v.Some? && v.value.List? then Some(v.value.items) else None
  }

  predicate ColumnOk(c: Value) {
    && c.Dict?
    && HasNonBlank(c.fields, "name")
    && HasNonBlank(c.fields, "type")
    && HasDescription(c.fields, "description")
  }

  predicate AllColumnsOk(cols: seq<Value>) {
    forall j :: 0 <= j < |cols| ==> ColumnOk(cols[j])
  }

  /** The table's own entries: a dict with a name, a description and a
      non-empty columns list. */
  predicate TableHeaderOk(t: Value) {
    && t.Dict?
    && HasNonBlank(t.fields, "table_name")
    && HasDescription(t.fields, "table_description")
    && ListAt(t.fields, "columns").Some?
    && |ListAt(t.fields, "columns").value| > 0
  }

  predicate TableOk(t: Value) {
    TableHeaderOk(t) && AllColumnsOk(ListAt(t.fields, "columns").value)
  }

  predicate AllTablesOk(tables: seq<Value>) {
    forall i :: 0 <= i < |tables| ==> TableOk(tables[i])
  }

  predicate SchemaOk(schema: seq<Field>) {
    && HasDescription(schema, "database_description")
    && ListAt(schema, "tables").Some?
    && |ListAt(schema, "tables").value| > 0
    && AllTablesOk(ListAt(schema, "tables").value)
  }

  // ---------------------------------------------------------------------
  // The checks, in the order the validator runs them

  function CheckColumn(table: nat, tableName: string, column: nat, col: Value): Option<SchemaError> {
    if !col.Dict? then Some(ColumnNotDict(table, tableName, column))
    else
      var name := Get(col.fields, "name");
      if name.None? || !IsNonBlankText(name.value) then Some(InvalidColumnName(table, tableName, column))
      else
        var ty := Get(col.fields, "type");
        if ty.None? || !IsNonBlankText(ty.value) then Some(InvalidColumnType(table, tableName, column, name.value.s))
        else
          var desc := Get(col.fields, "description");
          if desc.None? then Some(MissingColumnDescription(table, tableName, column, name.value.s))
          else if !IsDescriptionText(desc.value) then Some(InvalidColumnDescription(table, tableName, column, name.value.s))
          else None
  }

  /** The inner loop, from column j on. */
  function CheckColumns(table: nat, tableName: string, cols: seq<Value>, j: nat): Option<SchemaError>
    decreases |cols| - j
  {
    if j >= |cols| then None
    else
      match CheckColumn(table, tableName, j, cols[j])
      case Some(e) => Some(e)
      case None => CheckColumns(table, tableName, cols, j + 1)
  }

  function CheckTable(table: nat, t: Value): Option<SchemaError> {
    if !t.Dict? then Some(TableNotDict(table))
    else
      var name := Get(t.fields, "table_name");
      if name.None? then Some(MissingTableName(table))
      else if !IsNonBlankText(name.value) then Some(InvalidTableName(table))
      else
        var n := name.value.s;
        var desc := Get(t.fields, "table_description");
        if desc.None? then Some(MissingTableDescription(table, n))
        else if !IsDescriptionText(desc.value) then Some(InvalidTableDescription(table, n))
        else
          var cols := Get(t.fields, "columns");
          if cols.None? || !cols.value.List? then Some(ColumnsNotList(table, n))
          else if |cols.value.items| == 0 then Some(NoColumns(table, n))
          else CheckColumns(table, n, cols.value.items, 0)
  }

  /** The outer loop, from table i on. */
  function CheckTables(tables: seq<Value>, i: nat): Option<SchemaError>
    decreases |tables| - i
  {
    if i >= |tables| then None
    else
      match CheckTable(i, tables[i])
      case Some(e) => Some(e)
      case None => CheckTables(tables, i + 1)
  }

  /** The first failing check of the whole schema, if any. */
  function CheckSchema(schema: seq<Field>): Option<SchemaError> {
    var desc := Get(schema, "database_description");
    if desc.None? then Some(MissingDatabaseDescription)
    else if !IsDescriptionText(desc.value) then Some(InvalidDatabaseDescription)
    else
      var tables := Get(schema, "tables");
      if tables.None? || !tables.value.List? then Some(TablesNotList)
      else if |tables.value.items| == 0 then Some(NoTables)
      else CheckTables(tables.value.items, 0)
  }

  /** `_validate_schema`: (True, "") for a valid schema, otherwise False
      and the message of the first failing check. */
  function ValidateSchema(schema: seq<Field>): (r: (bool, string))
    ensures r.0 <==> SchemaOk(schema)
    ensures r.0 <==> r.1 == ""
  {
    CheckSchemaComplete(schema);
    match CheckSchema(schema)
    case None => (true, "")
    case Some(e) => (false, Message(e))
  }

  // ---------------------------------------------------------------------
  // The checks accept exactly the valid schemas

  lemma CheckColumnComplete(table: nat, tableName: string, column: nat, col: Value)
    ensures CheckColumn(table, tableName, column, col).None? <==> ColumnOk(col)
  {
  }

  /** Columns that all pass their checks pass the inner loop. */
  lemma {:induction false} CheckColumnsSound(table: nat, tableName: string, cols: seq<Value>, j: nat)
    requires forall k :: j <= k < |cols| ==> ColumnOk(cols[k])
    ensures CheckColumns(table, tableName, cols, j).None?
    decreases |cols| - j
  {
    if j < |cols| {
      CheckColumnComplete(table, tableName, j, cols[j]);
      CheckColumnsSound(table, tableName, cols, j + 1);
    }
  }

  /** The inner loop passes only when every column passes its checks. */
  lemma {:induction false} CheckColumnsExact(table: nat, tableName: string, cols: seq<Value>, j: nat)
    requires CheckColumns(table, tableName, cols, j).None?
    ensures forall k :: j <= k < |cols| ==> ColumnOk(cols[k])
    decreases |cols| - j
  {
    if j < |cols| {
      assert CheckColumn(table, tableName, j, cols[j]).None?;
      assert CheckColumns(table, tableName, cols, j + 1).None?;
      CheckColumnComplete(table, tableName, j, cols[j]);
      CheckColumnsExact(table, tableName, cols, j + 1);
    }
  }

  lemma CheckColumnsComplete(table: nat, tableName: string, cols: seq<Value>, j: nat)
    ensures CheckColumns(table, tableName, cols, j).None?
        <==> forall k :: j <= k < |cols| ==> ColumnOk(cols[k])
  {
    if CheckColumns(table, tableName, cols, j).None? {
      CheckColumnsExact(table, tableName, cols, j);
    } else if forall k :: j <= k < |cols| ==> ColumnOk(cols[k]) {
      CheckColumnsSound(table, tableName, cols, j);
    }
  }

  lemma CheckTableComplete(table: nat, t: Value)
    ensures CheckTable(table, t).None? <==> TableOk(t)
  {
    if TableHeaderOk(t) {
      CheckColumnsComplete(table, Get(t.fields, "table_name").value.s, ListAt(t.fields, "columns").value, 0);
    }
  }

  /** Tables that all pass their checks pass the outer loop. */
  lemma {:induction false} CheckTablesSound(tables: seq<Value>, i: nat)
    requires forall k :: i <= k < |tables| ==> TableOk(tables[k])
    ensures CheckTables(tables, i).None?
    decreases |tables| - i
  {
    if i < |tables| {
      CheckTableComplete(i, tables[i]);
      CheckTablesSound(tables, i + 1);
    }
  }

  /** The outer loop passes only when every table passes its checks. */
  lemma {:induction false} CheckTablesExact(tables: seq<Value>, i: nat)
    requires CheckTables(tables, i).None?
    ensures forall k :: i <= k < |tables| ==> TableOk(tables[k])
    decreases |tables| - i
  {
    if i < |tables| {
      assert CheckTable(i, tables[i]).None?;
      assert CheckTables(tables, i + 1).None?;
      CheckTableComplete(i, tables[i]);
      CheckTablesExact(tables, i + 1);
    }
  }

  lemma CheckTablesComplete(tables: seq<Value>, i: nat)
    ensures CheckTables(tables, i).None? <==> forall k :: i <= k < |tables| ==> TableOk(tables[k])
  {
    if CheckTables(tables, i).None? {
      CheckTablesExact(tables, i);
    } else if forall k :: i <= k < |tables| ==> TableOk(tables[k]) {
      CheckTablesSound(tables, i);
    }
  }

  /** The validator's checks pass exactly on the schemas SchemaOk describes. */
  lemma CheckSchemaComplete(schema: seq<Field>)
    ensures CheckSchema(schema).None? <==> SchemaOk(schema)
  {
    if ListAt(schema, "tables").Some? {
      CheckTablesComplete(ListAt(schema, "tables").value, 0);
    }
  }

  // ---------------------------------------------------------------------
  // The reported error comes from the first failing check

  /** An error found in one column is about that column. */
  lemma CheckColumnReports(table: nat, tableName: string, column: nat, col: Value)
    requires CheckColumn(table, tableName, column, col).Some?
    ensures var e := CheckColumn(table, tableName, column, col).value;
      e.IsColumnLevel() && e.table == table && e.tableName == tableName && e.column == column
  {
  }

  lemma {:induction false} CheckColumnsFirst(table: nat, tableName: string, cols: seq<Value>, j: nat)
    requires CheckColumns(table, tableName, cols, j).Some?
    ensures var e := CheckColumns(table, tableName, cols, j).value;
      && e.IsColumnLevel() && e.table == table && e.tableName == tableName
      && j <= e.column < |cols|
      && (forall k :: j <= k < e.column ==> ColumnOk(cols[k]))
      && CheckColumn(table, tableName, e.column, cols[e.column]) == Some(e)
    decreases |cols| - j
  {
    if CheckColumn(table, tableName, j, cols[j]).None? {
      assert CheckColumns(table, tableName, cols, j) == CheckColumns(table, tableName, cols, j + 1);
      CheckColumnsFirst(table, tableName, cols, j + 1);
      CheckColumnComplete(table, tableName, j, cols[j]);
      var e := CheckColumns(table, tableName, cols, j + 1).value;
      assert ColumnOk(cols[j]);
      assert forall k :: j + 1 <= k < e.column ==> ColumnOk(cols[k]);
    } else {
      assert CheckColumns(table, tableName, cols, j) == CheckColumn(table, tableName, j, cols[j]);
      CheckColumnReports(table, tableName, j, cols[j]);
    }
  }

  /** An error found in table i is about table i. */
  lemma CheckTableReportsTable(table: nat, t: Value)
    requires CheckTable(table, t).Some?
    ensures CheckTable(table, t).value.IsTableLevel() && CheckTable(table, t).value.table == table
  {
    if TableHeaderOk(t) {
      CheckColumnsFirst(table, Get(t.fields, "table_name").value.s, ListAt(t.fields, "columns").value, 0);
    }
  }

  lemma {:induction false} CheckTablesFirst(tables: seq<Value>, i: nat)
    requires CheckTables(tables, i).Some?
    ensures var e := CheckTables(tables, i).value;
      && e.IsTableLevel()
      && i <= e.table < |tables|
      && (forall k :: i <= k < e.table ==> TableOk(tables[k]))
      && CheckTable(e.table, tables[e.table]) == Some(e)
    decreases |tables| - i
  {
    var t := tables[i];
    var r := CheckTable(i, t);
    if r.None? {
      assert CheckTables(tables, i) == CheckTables(tables, i + 1);
      CheckTablesFirst(tables, i + 1);
      CheckTableComplete(i, t);
      var e := CheckTables(tables, i + 1).value;
      assert TableOk(tables[i]);
      assert forall k :: i + 1 <= k < e.table ==> TableOk(tables[k]);
    } else {
      assert CheckTables(tables, i) == r;
      CheckTableReportsTable(i, t);
    }
  }

  /** Which check failed, in terms of the schema: the database-level
      checks come first, then the tables in order, and within the first
      bad table its name, its description and its columns list, then its
      columns in order. */
  lemma FirstFailure(schema: seq<Field>)
    requires !SchemaOk(schema)
    ensures CheckSchema(schema).Some?
    ensures var e := CheckSchema(schema).value;
      && (e.MissingDatabaseDescription? <==> Get(schema, "database_description").None?)
      && (e.InvalidDatabaseDescription? <==>
            Get(schema, "database_description").Some? && !HasDescription(schema, "database_description"))
      && (e.TablesNotList? <==> HasDescription(schema, "database_description") && ListAt(schema, "tables").None?)
      && (e.NoTables? <==> HasDescription(schema, "database_description") && ListAt(schema, "tables") == Some([]))
      && (e.IsTableLevel() ==>
            var tables := ListAt(schema, "tables").value;
            && HasDescription(schema, "database_description")
            && ListAt(schema, "tables").Some?
            && e.table < |tables|
            && (forall k :: 0 <= k < e.table ==> TableOk(tables[k]))
            && !TableOk(tables[e.table])
            && CheckTable(e.table, tables[e.table]) == Some(e))
  {
    CheckSchemaComplete(schema);
    var e := CheckSchema(schema).value;
    if ListAt(schema, "tables").Some? && HasDescription(schema, "database_description")
        && |ListAt(schema, "tables").value| > 0 {
      CheckTablesFirst(ListAt(schema, "tables").value, 0);
      var tables := ListAt(schema, "tables").value;
      CheckTableComplete(e.table, tables[e.table]);
    }
  }

  /** The message a failed validation returns is the text of the first
      failing check. */
  lemma FailureMessage(schema: seq<Field>)
    requires !ValidateSchema(schema).0
    ensures CheckSchema(schema).Some? && ValidateSchema(schema).1 == Message(CheckSchema(schema).value)
  {
    CheckSchemaComplete(schema);
  }

  /** Within the first bad table, a column-level error means the table's
      own checks passed and the error is about its first bad column. */
  lemma ColumnFailure(table: nat, t: Value)
    requires CheckTable(table, t).Some? && CheckTable(table, t).value.IsColumnLevel()
    ensures var e := CheckTable(table, t).value;
      && t.Dict?
      && HasNonBlank(t.fields, "table_name")
      && e.tableName == Get(t.fields, "table_name").value.s
      && HasDescription(t.fields, "table_description")
      && ListAt(t.fields, "columns").Some?
      && var cols := ListAt(t.fields, "columns").value;
      && e.column < |cols|
      && (forall k :: 0 <= k < e.column ==> ColumnOk(cols[k]))
      && !ColumnOk(cols[e.column])
      && CheckColumn(table, e.tableName, e.column, cols[e.column]) == Some(e)
  {
    CheckColumnsFirst(table, Get(t.fields, "table_name").value.s, ListAt(t.fields, "columns").value, 0);
  }

  /** Within a table the checks run in order: dict, name present, name
      non-blank, description present, description long enough, columns a
      list, columns non-empty, and only then the columns themselves. Each
      error occurs exactly when the checks before it pass and its own fails. */
  lemma TableCheckOrder(table: nat, t: Value)
    requires CheckTable(table, t).Some?
    ensures var e := CheckTable(table, t).value;
      && (e.TableNotDict? <==> !t.Dict?)
      && (e.MissingTableName? <==> t.Dict? && Get(t.fields, "table_name").None?)
      && (e.InvalidTableName? <==>
            t.Dict? && Get(t.fields, "table_name").Some? && !HasNonBlank(t.fields, "table_name"))
      && (e.MissingTableDescription? <==>
            t.Dict? && HasNonBlank(t.fields, "table_name") && Get(t.fields, "table_description").None?)
      && (e.InvalidTableDescription? <==>
            t.Dict? && HasNonBlank(t.fields, "table_name")
            && Get(t.fields, "table_description").Some? && !HasDescription(t.fields, "table_description"))
      && (e.ColumnsNotList? <==>
            t.Dict? && HasNonBlank(t.fields, "table_name") && HasDescription(t.fields, "table_description")
            && ListAt(t.fields, "columns").None?)
      && (e.NoColumns? <==>
            t.Dict? && HasNonBlank(t.fields, "table_name") && HasDescription(t.fields, "table_description")
            && ListAt(t.fields, "columns") == Some([]))
      && (e.IsColumnLevel() <==> TableHeaderOk(t))
      && (!e.TableNotDict? && !e.MissingTableName? && !e.InvalidTableName? ==>
            e.tableName == Get(t.fields, "table_name").value.s)
  {
    CheckTableReportsTable(table, t);
    if TableHeaderOk(t) {
      CheckColumnsFirst(table, Get(t.fields, "table_name").value.s, ListAt(t.fields, "columns").value, 0);
    }
  }

  /** Within a column, name is checked before type and type before
      description. */
  lemma ColumnCheckOrder(table: nat, tableName: string, column: nat, col: Value)
    requires CheckColumn(table, tableName, column, col).Some?
    ensures var e := CheckColumn(table, tableName, column, col).value;
      && (e.ColumnNotDict? <==> !col.Dict?)
      && (e.InvalidColumnName? <==> col.Dict? && !HasNonBlank(col.fields, "name"))
      && (e.InvalidColumnType? <==>
            col.Dict? && HasNonBlank(col.fields, "name") && !HasNonBlank(col.fields, "type"))
      && (e.MissingColumnDescription? <==>
            col.Dict? && HasNonBlank(col.fields, "name") && HasNonBlank(col.fields, "type")
            && Get(col.fields, "description").None?)
      && (e.InvalidColumnDescription? <==>
            col.Dict? && HasNonBlank(col.fields, "name") && HasNonBlank(col.fields, "type")
            && Get(col.fields, "description").Some? && !HasDescription(col.fields, "description"))
  {
  }

  // ---------------------------------------------------------------------
  // Keys other than name, type and description are never looked at

  /** Two column entries that agree on the checked keys. */
  predicate SameCheckedKeys(a: Value, b: Value) {
    && a.Dict? == b.Dict?
    && (a.Dict? ==>
          && Get(a.fields, "name") == Get(b.fields, "name")
          && Get(a.fields, "type") == Get(b.fields, "type")
          && Get(a.fields, "description") == Get(b.fields, "description"))
  }

  lemma CheckColumnLocal(table: nat, tableName: string, column: nat, a: Value, b: Value)
    requires SameCheckedKeys(a, b)
    ensures CheckColumn(table, tableName, column, a) == CheckColumn(table, tableName, column, b)
  {
  }

  lemma {:induction false} CheckColumnsLocal(table: nat, tableName: string, xs: seq<Value>, ys: seq<Value>, j: nat)
    requires |xs| == |ys|
    requires forall k :: 0 <= k < |xs| ==> SameCheckedKeys(xs[k], ys[k])
    ensures CheckColumns(table, tableName, xs, j) == CheckColumns(table, tableName, ys, j)
    decreases |xs| - j
  {
    if j < |xs| {
      CheckColumnLocal(table, tableName, j, xs[j], ys[j]);
      CheckColumnsLocal(table, tableName, xs, ys, j + 1);
    }
  }

  /** Setting a column's `constraints` entry, to anything at all, never
      changes what the column checks report. */
  lemma {:induction false} ConstraintsNotInspected(table: nat, tableName: string, cols: seq<Value>, j: nat, v: Value)
    requires j < |cols| && cols[j].Dict?
    ensures var col' := Dict(Put(cols[j].fields, "constraints", v));
      CheckColumns(table, tableName, cols[j := col'], 0) == CheckColumns(table, tableName, cols, 0)
  {
    var fs := cols[j].fields;
    PutOther(fs, "constraints", v, "name");
    PutOther(fs, "constraints", v, "type");
    PutOther(fs, "constraints", v, "description");
    CheckColumnsLocal(table, tableName, cols, cols[j := Dict(Put(fs, "constraints", v))], 0);
  }

  // ---------------------------------------------------------------------
  // Messages

  /** The message `_validate_schema` returns for each failing check. */
  function Message(e: SchemaError): (m: string)
    ensures |m| > 0
  {
    match e
    case MissingDatabaseDescription =>
      "必須項目 'database_description' がありません。\n"
      + "データベース全体の目的を記述してください。\n\n"
      + "例: {'database_description': '2025年顧客データ分析', 'tables': [...]}"
    case InvalidDatabaseDescription =>
      "'database_description' は5文字以上の文字列で指定してください。\n"
      + "このデータベースが何のために作成されるのか、具体的に説明してください。\n\n"
      + "例: '2025年第1四半期の売上分析データ'"
    case TablesNotList => "'tables' は配列で指定してください。"
    case NoTables => "少なくとも1つのテーブル定義が必要です。"
    case TableNotDict(i) => "テーブル " + Decimal(i + 1) + " が不正な形式です。辞書で指定してください。"
    case MissingTableName(i) => "テーブル " + Decimal(i + 1) + " の 'table_name' が必須です。"
    case InvalidTableName(i) => "テーブル " + Decimal(i + 1) + " の 'table_name' は非空の文字列で指定してください。"
    case MissingTableDescription(_, n) =>
      "テーブル '" + n + "' の 'table_description' が必須です。\n"
      + "このテーブルが何を格納するのか説明してください。\n\n"
      + "例: 'table_description': '顧客の基本情報と連絡先'"
    case InvalidTableDescription(_, n) => "テーブル '" + n + "' の 'table_description' は5文字以上で指定してください。"
    case ColumnsNotList(_, n) => "テーブル '" + n + "' の 'columns' は配列で指定してください。"
    case NoColumns(_, n) => "テーブル '" + n + "' に少なくとも1つのカラムが必要です。"
    case ColumnNotDict(_, n, j) => "テーブル '" + n + "' のカラム " + Decimal(j + 1) + " が不正な形式です。"
    case InvalidColumnName(_, n, j) => "テーブル '" + n + "' のカラム " + Decimal(j + 1) + " の 'name' が必須です。"
    case InvalidColumnType(_, n, _, c) => "テーブル '" + n + "' のカラム '" + c + "' の 'type' が必須です。"
    case MissingColumnDescription(_, n, _, c) =>
      "テーブル '" + n + "' のカラム '" + c + "' の 'description' が必須です。\n"
      + "このカラムが何を表すのか説明してください。\n\n"
      + "例: 'description': '顧客の登録日時（UTC）'"
    case InvalidColumnDescription(_, n, _, c) =>
      "テーブル '" + n + "' のカラム '" + c + "' の 'description' は5文字以上で指定してください。"
  }

  /** A message made of a header, a number and text that does not start
      with a digit shows the number right after the header. */
  lemma NumberAfter(h: string, n: nat, rest: string)
    requires rest == [] || !IsDigit(rest[0])
    ensures StartsWith(h + Decimal(n) + rest, h)
    ensures DigitsValue(LeadingDigits((h + Decimal(n) + rest)[|h|..])) == n
  {
    var m := h + Decimal(n) + rest;
    assert m[..|h|] == h;
    assert m[|h|..] == Decimal(n) + rest;
    LeadingDigitsOf(Decimal(n), rest);
  }

  const TableHeader := "テーブル "

  /** The messages about table i show the number i + 1 right after the
      header "テーブル ". */
  lemma MessageTableNumber(e: SchemaError)
    requires e.TableNotDict? || e.MissingTableName? || e.InvalidTableName?
    ensures StartsWith(Message(e), TableHeader)
    ensures DigitsValue(LeadingDigits(Message(e)[|TableHeader|..])) == e.table + 1
  {
    match e
    case TableNotDict(i) => NumberAfter(TableHeader, i + 1, " が不正な形式です。辞書で指定してください。");
    case MissingTableName(i) => NumberAfter(TableHeader, i + 1, " の 'table_name' が必須です。");
    case InvalidTableName(i) => NumberAfter(TableHeader, i + 1, " の 'table_name' は非空の文字列で指定してください。");
  }

  /** The header of the messages about one column of a named table. */
  function ColumnHeader(tableName: string): string {
    "テーブル '" + tableName + "' のカラム "
  }

  /** The messages about column j of a table name it and show the number
      j + 1 right after the column header. */
  lemma MessageColumnNumber(e: SchemaError)
    requires e.ColumnNotDict? || e.InvalidColumnName?
    ensures StartsWith(Message(e), ColumnHeader(e.tableName))
    ensures DigitsValue(LeadingDigits(Message(e)[|ColumnHeader(e.tableName)|..])) == e.column + 1
  {
    match e
    case ColumnNotDict(_, n, j) => NumberAfter(ColumnHeader(n), j + 1, " が不正な形式です。");
    case InvalidColumnName(_, n, j) => NumberAfter(ColumnHeader(n), j + 1, " の 'name' が必須です。");
  }

  /** Text that starts with a quote, after q, starts with q and a quote. */
  lemma QuoteAfter(q: string, lit: string)
    requires lit != [] && lit[0] == '\''
    ensures StartsWith(q + lit, q + "'")
  {
    assert (q + lit)[..|q| + 1] == q + "'";
  }

  lemma StartsWithExtend(x: string, y: string, p: string)
    requires StartsWith(x, p)
    ensures StartsWith(x + y, p)
  {
    assert (x + y)[..|p|] == x[..|p|];
  }

  /** The messages about a named table start with its name in quotes,
      and those about a named column continue with the column's name. */
  lemma MessageNames(e: SchemaError)
    ensures (e.MissingTableDescription? || e.InvalidTableDescription? || e.ColumnsNotList? || e.NoColumns?)
      ==> StartsWith(Message(e), "テーブル '" + e.tableName + "'")
    ensures (e.InvalidColumnType? || e.MissingColumnDescription? || e.InvalidColumnDescription?)
      ==> StartsWith(Message(e), "テーブル '" + e.tableName + "' のカラム '" + e.columnName + "'")
  {
    match e
    case MissingTableDescription(_, n) =>
      var q := "テーブル '" + n;
      var l1 := "' の 'table_description' が必須です。\n";
      QuoteAfter(q, l1);
      StartsWithExtend(q + l1, "このテーブルが何を格納するのか説明してください。\n\n", q + "'");
      StartsWithExtend(q + l1 + "このテーブルが何を格納するのか説明してください。\n\n",
        "例: 'table_description': '顧客の基本情報と連絡先'", q + "'");
    case InvalidTableDescription(_, n) =>
      QuoteAfter("テーブル '" + n, "' の 'table_description' は5文字以上で指定してください。");
    case ColumnsNotList(_, n) =>
      QuoteAfter("テーブル '" + n, "' の 'columns' は配列で指定してください。");
    case NoColumns(_, n) =>
      QuoteAfter("テーブル '" + n, "' に少なくとも1つのカラムが必要です。");
    case InvalidColumnType(_, n, _, c) =>
      QuoteAfter("テーブル '" + n + "' のカラム '" + c, "' の 'type' が必須です。");
    case MissingColumnDescription(_, n, _, c) =>
      var q := "テーブル '" + n + "' のカラム '" + c;
      var l1 := "' の 'description' が必須です。\n";
      QuoteAfter(q, l1);
      StartsWithExtend(q + l1, "このカラムが何を表すのか説明してください。\n\n", q + "'");
      StartsWithExtend(q + l1 + "このカラムが何を表すのか説明してください。\n\n",
        "例: 'description': '顧客の登録日時（UTC）'", q + "'");
    case InvalidColumnDescription(_, n, _, c) =>
      QuoteAfter("テーブル '" + n + "' のカラム '" + c, "' の 'description' は5文字以上で指定してください。");
    case _ =>
  }
}
