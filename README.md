# SQLite database operations with mandatory metadata — a Dafny model

This project models the core of `src/db_operations.py`, the module behind an
MCP server. The server lets a client create SQLite databases, fill them and
query them. Every database is one `<name>.db` file in a storage directory.
Every database must describe itself: a database description, and a name and
description for every table and every column. Those descriptions are kept in
a reserved `_metadata` table.

What is modelled:

- **File naming** (`_get_db_path`). `.db` is appended unless the name already
  ends with it (module `DbPath`).
- **Metadata upserts** (`_update_metadata`). A key keeps its first creation
  time, and each write sets its value and update time (module `Metadata`).
  The table is a class whose method updates a `map`.
- **Schema validation** (`_validate_schema`). The checks run in the source's
  order, and the first failing one decides the (Japanese) message (module
  `SchemaValidation`). The validator is a pure function.
- **The validator is exact.** Declarative predicates (`SchemaOk`, `TableOk`,
  `ColumnOk`) state what a valid schema is. Lemmas prove:
  - the checks pass exactly on the schemas those predicates accept;
  - a reported error names the first bad table and the first bad column;
  - setting a column's `constraints` entry, which the validator never
    reads, cannot change the column checks' verdict.
- **SQL text** (module `Statements`):
  - the CREATE TABLE statement `create_database` builds for each table;
  - the parameterised INSERT of `insert_data`, which has exactly one `?`
    per column;
  - the SELECT-only guard of `query_data`, which ignores leading
    whitespace and (ASCII) letter case.
- **The operations** (module `DbOperations`). `CreateDatabase`, `InsertData`,
  `QueryData` and `DeleteDatabase` are methods of a `Directory` class. Its
  field is the set of existing `.db` files.
  - Inserted rows go through a `Storage.Table` class. It holds the committed
    rows and the rows the open connection has executed but not committed, so
    commit and rollback are explicit.
  - Raised exceptions become `Err` values of a `DbError` datatype.
  - Python values (str, int, bool, None, list, dict) are the `PyValue.Value`
    datatype. A dict is a sequence of fields in insertion order.

What SQLite would answer is passed in as a function parameter (an "engine"):

- `DdlEngine` answers a CREATE TABLE.
- `InsertEngine` answers one INSERT, given the rows the connection already
  sees.
- `QueryEngine` answers a query.

Likewise, the clock reading `datetime.now().isoformat()` is the `now`
parameter. `json.dumps` is the `dumps` parameter. A failure of `unlink` is
the `unlinkError` parameter.

The model follows the code of `src/db_operations.py`. The server module
`src/server.py` also imports CSV import and export, a transaction executor,
optimised bulk insert, prepared statements and batch queries from
`db_operations`. `src/db_operations.py` defines none of them, and they are
not part of this model (see "Left out").

## Model

| member | source | states |
|---|---|---|
| DbPath.DbFileName | src/db_operations.py:24-25 | the file name always ends in `.db`; it equals the name exactly when the name already ends in `.db`, and otherwise is the name with `.db` appended |
| DbPath.PathOf | src/db_operations.py:22-26 | the path is the storage directory joined with the normalised file name, so it ends in `/<name>.db` |
| DbPath.DbFileNameIdempotent | src/db_operations.py:24-25 | normalising a file name a second time changes nothing |
| DbPath.DbFileNameAlias | src/db_operations.py:24-25 | `x` and `x.db` are the same database when `x` lacks the suffix; `x.db` and `x.db.db` are different databases |
| DbPath.DbFileNameInjective | src/db_operations.py:24-25 | two different names without the suffix never share a file |
| Metadata.Upserted | src/db_operations.py:42-58 | after an upsert the key holds the new value and `now` as update time; an existing key keeps its creation time, and a new key gets `now` as both times; every other key is unchanged |
| Metadata.UpsertTwice | src/db_operations.py:44-57 | two upserts of one key leave the later value and time, and the creation time of the first write ever made |
| Metadata.UpsertCommutes | src/db_operations.py:42-58 | upserts of different keys commute |
| Metadata.MetadataTable.constructor | src/db_operations.py:29-39 | a freshly created `_metadata` table is empty |
| Metadata.MetadataTable.Update | src/db_operations.py:42-58 | the SELECT-then-UPDATE-or-INSERT sequence leaves the table equal to `Upserted` of the old table |
| SchemaValidation.ValidateSchema | src/db_operations.py:61-160 | returns `True` exactly for the schemas `SchemaOk` describes, and the message is empty exactly then |
| SchemaValidation.Message | src/db_operations.py:73-157 | every failing check has a non-empty message; the body gives the literal messages, and the lemmas below prove their headers, 1-based numbers and quoted names |
| SchemaValidation.NumberAfter | src/db_operations.py:97 | a header followed by `str(n)` and text not starting with a digit starts with the header, and the digits right after it read back as n |
| SchemaValidation.MessageTableNumber | src/db_operations.py:96-104 | the messages about table i (not a dict, name missing, name blank) start with `テーブル ` followed by the number i+1 |
| SchemaValidation.MessageColumnNumber | src/db_operations.py:129-138 | the messages about column j (not a dict, name missing or blank) start with `テーブル '<table>' のカラム ` followed by the number j+1 |
| SchemaValidation.MessageNames | src/db_operations.py:107-158 | the messages about a named table start with `テーブル '<table>'`, and those about a named column start with `テーブル '<table>' のカラム '<column>'` |
| SchemaValidation.CheckColumnComplete | src/db_operations.py:129-158 | one column passes its five checks exactly when it is a dict with a non-blank string name and type and a description of at least 5 stripped characters |
| SchemaValidation.CheckColumnsSound | src/db_operations.py:128-158 | if every column from j on is valid, the column loop reports nothing |
| SchemaValidation.CheckColumnsExact | src/db_operations.py:128-158 | if the column loop reports nothing, every column from j on is valid |
| SchemaValidation.CheckColumnsComplete | src/db_operations.py:128-158 | the column loop reports nothing if and only if every column from j on is valid |
| SchemaValidation.CheckTableComplete | src/db_operations.py:96-158 | a table passes its checks exactly when it has a non-blank name, a description, a non-empty columns list and only valid columns |
| SchemaValidation.CheckTablesSound | src/db_operations.py:95-158 | if every table from i on is valid, the table loop reports nothing |
| SchemaValidation.CheckTablesExact | src/db_operations.py:95-158 | if the table loop reports nothing, every table from i on is valid |
| SchemaValidation.CheckTablesComplete | src/db_operations.py:95-158 | the table loop reports nothing if and only if every table from i on is valid |
| SchemaValidation.CheckSchemaComplete | src/db_operations.py:71-160 | the whole validator reports nothing if and only if the schema is valid |
| SchemaValidation.CheckColumnReports | src/db_operations.py:129-158 | an error found in column j of table i is a column-level error naming table i, its name and column j |
| SchemaValidation.CheckColumnsFirst | src/db_operations.py:128-158 | a reported column error is about the first invalid column: all earlier columns are valid |
| SchemaValidation.CheckTableReportsTable | src/db_operations.py:96-158 | an error found in table i is a table-level error naming table i |
| SchemaValidation.CheckTablesFirst | src/db_operations.py:95-158 | a reported table error is about the first invalid table: all earlier tables are valid, and re-checking that table gives the same error |
| SchemaValidation.FirstFailure | src/db_operations.py:71-158 | for an invalid schema, which check fails: a missing or too short database description, `tables` not a list or empty, or else the first invalid table, each case exactly under its condition |
| SchemaValidation.FailureMessage | src/db_operations.py:72-158 | a failed validation returns the message of the first failing check |
| SchemaValidation.ColumnFailure | src/db_operations.py:99-158 | a column-level error means the table's own checks passed, and the error is about its first invalid column |
| SchemaValidation.TableCheckOrder | src/db_operations.py:96-128 | within a table the checks run in this order: dict, name present, name non-blank, description present, description long enough, columns a list, columns non-empty, then the columns; each error occurs exactly when the earlier checks pass and its own fails; a column-level error occurs exactly when the table's own checks pass; every error after the name checks carries the table's name |
| SchemaValidation.ColumnCheckOrder | src/db_operations.py:129-158 | within a column the checks run in this order: dict, name, type, missing description, short description; each error occurs exactly when the earlier checks pass and its own fails |
| SchemaValidation.CheckColumnLocal | src/db_operations.py:129-158 | a column's verdict depends only on its `name`, `type` and `description` entries |
| SchemaValidation.CheckColumnsLocal | src/db_operations.py:128-158 | column lists that agree on those entries get the same verdict |
| SchemaValidation.ConstraintsNotInspected | src/db_operations.py:128-158 | setting any column's `constraints` entry, to any value, never changes the validator's verdict on the columns |
| Statements.ColumnDef | src/db_operations.py:239-241 | a column definition is `name type`, followed by ` constraints` exactly when `constraints` is truthy |
| Statements.ColumnDefs | src/db_operations.py:237-242 | one definition per column, in schema order |
| Statements.CreateTableSqlShape | src/db_operations.py:244 | the statement begins with `CREATE TABLE <name> (` and ends with `)` |
| Statements.ColumnDefsAppend | src/db_operations.py:238-242 | a column added to the schema adds its definition at the end |
| Statements.CreateTableSqlAppend | src/db_operations.py:238-244 | a further column appears in the statement after `, `, following the earlier columns' definitions |
| Statements.BuildCreateTable | src/db_operations.py:234-244 | the statement-building loop produces exactly `CreateTableSql` of the table's name and columns |
| Statements.PlaceholderCount | src/db_operations.py:312 | the placeholder list holds exactly one `?` per column |
| Statements.InsertSqlMarkers | src/db_operations.py:311-315 | when neither the table name nor the column names contain `?`, the INSERT has as many markers as columns |
| Statements.SelectGuardIgnoresPadding | src/db_operations.py:380-381 | whitespace in front of a query never changes the guard's verdict |
| Statements.SelectGuardIgnoresCase | src/db_operations.py:380-381 | upper-casing a query never changes the guard's verdict |
| Statements.SelectGuardLetters | src/db_operations.py:380-381 | the guard accepts exactly when the stripped query has at least six characters whose upper-case forms spell SELECT |
| Storage.AllAcceptedPrefix | src/db_operations.py:320-331 | if the engine accepts a batch row by row, it accepts each prefix of the batch |
| Storage.Table.constructor | src/db_operations.py:308 | a new connection sees the committed rows and has nothing pending |
| Storage.Table.Execute | src/db_operations.py:329 | the engine sees the committed and pending rows; an accepted row becomes pending; a rejected statement changes nothing |
| Storage.Table.Commit | src/db_operations.py:332 | pending rows are appended to the committed ones |
| Storage.Table.Rollback | src/db_operations.py:342-350 | pending rows are discarded and the committed rows are unchanged |
| PyValue.Keys | src/db_operations.py:311 | `list(d.keys())` lists every key in insertion order |
| PyValue.GetPresent | src/db_operations.py:322-328 | a lookup finds a value exactly for the keys `keys()` lists |
| PyValue.GetUnique | src/db_operations.py:328 | in a dict with distinct keys, looking up any field's key gives that field's value |
| PyValue.Put | src/db_operations.py:401 | storing into a dict keeps the key list, or appends the new key, and the key then maps to the stored value |
| PyValue.PutOther | src/db_operations.py:401 | storing under one key leaves every other key's value unchanged |
| PyValue.ZipDictKeys | src/db_operations.py:401 | `dict(zip(columns, row))` over distinct columns, with one value per column, has the columns as keys, in order |
| PyValue.ZipDictLookup | src/db_operations.py:401 | in that dict, each column maps to the row's value at the same position |
| Text.TrimLeftSpec | src/db_operations.py:80 | stripping on the left removes only whitespace, and stops at the first other character |
| Text.TrimRightSpec | src/db_operations.py:80 | stripping on the right removes only whitespace, and stops at the last other character |
| Text.StripSpec | src/db_operations.py:103 | `strip()` leaves no whitespace at either end, and is empty exactly when the text is all whitespace |
| Text.StripSpaceCons | src/db_operations.py:380 | one leading whitespace character does not change `strip()` |
| Text.StripPadded | src/db_operations.py:380 | any whitespace prefix does not change `strip()` |
| Text.Join | src/db_operations.py:244 | joining no items gives the empty string, and joining one item gives that item |
| Text.JoinAppend | src/db_operations.py:244 | joining a concatenation puts one separator between the two joined parts |
| Text.Count | src/db_operations.py:312 | a character count is zero exactly when the character does not occur |
| Text.CountAppend | src/db_operations.py:312-315 | counts add up over a concatenation |
| Text.AsciiUpper | src/db_operations.py:380 | upper-casing keeps whitespace and maps letters to capitals and non-letters to non-capitals (ASCII) |
| Text.Upper | src/db_operations.py:380 | the ASCII upper-casing keeps the length and maps each character by `AsciiUpper` |
| Text.Decimal | src/db_operations.py:97 | `str(n)` is a non-empty string of digits without a leading zero whose value is n |
| Text.DecimalInjective | src/db_operations.py:97 | different numbers are rendered differently |
| Text.LeadingDigits | src/db_operations.py:97 | the leading run of digits is a prefix made of digits, followed by a non-digit or the end |
| Text.LeadingDigitsOf | src/db_operations.py:97 | digits followed by text that does not start with a digit have exactly those digits as leading run |
| DbOperations.TableNames | src/db_operations.py:228 | the i-th table name is table i's `table_name` |
| DbOperations.CreateStatements | src/db_operations.py:233-244 | the i-th statement is table i's CREATE TABLE |
| DbOperations.CreateTables | src/db_operations.py:231-248 | the loop succeeds if and only if the engine accepts every statement after the earlier tables; it then returns all table names and statements; otherwise it stops at the first rejected statement with that error's message |
| DbOperations.InitialMetadataWrites | src/db_operations.py:221-229 | the three upserts into an empty `_metadata` give exactly the three first-write entries |
| DbOperations.WriteInitialMetadata | src/db_operations.py:219-229 | the fresh metadata table holds the description, the schema JSON and the table-name JSON, each created and updated at the same clock reading |
| DbOperations.Normalize | src/db_operations.py:299-306 | a dict becomes a one-row list, a non-empty list is kept, an empty list is `data cannot be empty`, and anything else is `must be a dict or list` |
| DbOperations.BindValues | src/db_operations.py:322-328 | once a row's key set equals the columns', each bound value is that row's value for the column in the same position |
| DbOperations.BindAllAt | src/db_operations.py:320-329 | the k-th parameter list comes from the k-th data row |
| DbOperations.IntegrityMessage | src/db_operations.py:345 | an integrity error's message is `Data integrity error: ` followed by the engine's message, which can be read back |
| DbOperations.EngineFailure | src/db_operations.py:342-350 | a rejected INSERT raises an integrity violation exactly when the engine reports an `IntegrityError`, with message `Data integrity error: ` followed by the engine's message; any other engine error is re-raised with its own message |
| DbOperations.FailureFacts | src/db_operations.py:320-350 | a failure at row k is a non-dict row k, a key-set mismatch of row k against the first row's keys (with both key lists), an integrity violation, or an engine error |
| DbOperations.RowFailureFirst | src/db_operations.py:320-331 | a row before one the batch got past does not fail, so a failure at row k is the first failure |
| DbOperations.ExecuteRows | src/db_operations.py:308-350 | succeeds if and only if every row is a dict with the first row's key set and the engine accepts every row in order; all rows are then pending; otherwise nothing is pending and the failure is the one raised at some row k: every row before k matched and was accepted, and row k is not a dict, has another key set, or is rejected (mapped by `EngineFailure`) |
| DbOperations.InsertRow | src/db_operations.py:320-350 | one loop pass: the failure is exactly `RowFailure` of the row given what the connection already sees; a failure rolls back and means the batch so far is not accepted |
| DbOperations.BatchFails | src/db_operations.py:320-350 | a key-set failure or a rejection at row k means the whole batch cannot succeed |
| DbOperations.ShapeRows | src/db_operations.py:397-401 | one dict per fetched row, each `dict(zip(columns, row))` |
| DbOperations.Directory.constructor | src/db_operations.py:18-19 | the storage directory with the given files |
| DbOperations.Directory.CreateDatabase | src/db_operations.py:198-265 | an invalid schema gives its validation message, and an existing file gives `FileExistsError` with the path; success holds if and only if the schema is valid, the file is new and every CREATE TABLE is accepted; then the file exists, the result has the message, path, tables and statements, and the metadata is exactly the three initial entries; a rejected CREATE TABLE gives `ExecutionFailed` with the engine's message for the first rejected statement, all earlier ones accepted; any failure leaves the directory unchanged |
| DbOperations.Directory.InsertData | src/db_operations.py:291-350 | a missing file gives `NotFound`, and bad data gives its `ValueError` before anything runs; success holds if and only if the file exists and the whole batch is accepted, and then every row is committed, in order, in the first row's column order, and the row count is reported; otherwise the error is the one raised at some row k before which every row matched and was accepted (a key-set mismatch lists the first row's keys and row k's, an integrity violation carries `Data integrity error: `); any failure commits nothing |
| DbOperations.Directory.QueryData | src/db_operations.py:374-412 | a missing file gives `NotFound`, and a non-SELECT gives `NotSelect` before the engine is asked; engine errors are wrapped as `Query execution failed: ...`; on success the columns are the cursor's (empty without a description), there is one dict per fetched row, and the row count equals the number of rows |
| DbOperations.Directory.DeleteDatabase | src/db_operations.py:546-603 | a missing file gives `NotFound`; without confirmation the confirmation message is returned and the file stays; with it, the file is removed and the path reported, unless removal fails with `Failed to delete database: ...`, which leaves the file |

## Left out

- `create_table_from_csv`, `export_table_to_csv`, `export_table_to_file`, `export_database`, `execute_transaction`, `bulk_insert_optimized`, `prepare_statement`, `execute_prepared`, `close_prepared`, `execute_batch_queries` and `store_markdown_to_record`: `src/server.py` and `src/__init__.py` (lines 24-44) import them, but their definitions are not part of this model. The server layer `src/server.py` (tool registration, JSON-RPC) is not part of this model either.
- `list_all_databases`, `get_database_info`, `get_table_schema` and `get_table_info`: read-only reporting, outside the modelled core.
- SQLite itself: the engine's answers to CREATE TABLE, INSERT and SELECT are function parameters (`DdlEngine`, `InsertEngine`, `QueryEngine`). Parsing and executing SQL is not modelled.
- DbOperations.Directory.DeleteDatabase: `confirm` is a required argument here, while the source's defaults to `False` (src/db_operations.py:529); a call without it is modelled by passing `false`.
- DbOperations.Directory.DeleteDatabase: collecting `database_info` before removal is not modelled. That part lists the tables, counts their records and reads the file size, and a failure there is not modelled either.
- DbOperations.Directory.CreateDatabase: only a failing CREATE TABLE is modelled as a failure after the file is created. A failure in `_ensure_metadata_table`, in `_update_metadata` or in `json.dumps` is not modelled, so `dumps` is a total function.
- DbOperations.Directory.CreateDatabase: the metadata table is returned in the result rather than stored in the file, because file contents are not modelled.
- DbOperations.WriteInitialMetadata: the three metadata writes share one clock reading `now`. In the source each `_update_metadata` reads the clock itself, and the readings can differ.
- Clock, JSON encoding and file-system errors are parameters (`now`, `dumps`, `unlinkError`). Logging is omitted.
- DbOperations.WriteInitialMetadata: one `dumps` parameter stands for both `json.dumps(schema, ensure_ascii=False)` (src/db_operations.py:225) and `json.dumps(table_names)` (line 229), which escapes non-ASCII characters by default; the model does not distinguish the two encodings.
- Path handling: `DB_DIR / name` is string concatenation with `/`. Path normalisation, names containing `/` or `..`, and `str(Path)` formatting are not modelled.
- Text.AsciiUpper: only ASCII letters are upper-cased. Python's full Unicode mapping (including characters whose upper case is longer) is not modelled.
- Text.Upper: Python's `str.upper()` is not a character-by-character map: it can lengthen the text ('ß' becomes "SS") and maps some non-ASCII letters onto ASCII ones ('ſ' becomes 'S'). The model's guard therefore rejects a query such as `ſelect 1`, which the source's guard accepts; for queries whose first six non-blank characters are not such letters the verdicts agree. The same holds for Statements.SelectGuardIgnoresCase and Statements.SelectGuardLetters, which are stated for the ASCII upper-casing.
- PyValue.Format: an f-string of a list or dict renders as the empty string instead of Python's `repr`. Only a truthy `constraints` value reaches it, and constraints are normally strings.
- Floats, bytes and other Python types are not in `Value`. They would pass through `row[col]` unchanged and are not needed for any property.
- Python dicts never repeat a key. The model's field sequences may repeat one, in which case lookup takes the first occurrence.
- DbOperations.Directory.InsertData: a failure of `conn.commit()` (src/db_operations.py:332) is not modelled; in the source it would be rolled back and re-raised by the generic handler. `Storage.Table.Commit` always succeeds.
- DbOperations.Directory.InsertData: requires a connection with nothing pending, since `sqlite3.connect` opens a fresh connection.
- DbOperations.Directory.InsertData: a non-dict row raises `AttributeError` in the source, which the generic handler rolls back and re-raises. The model reports it as `RowNotDict` with the row's index.
- DbOperations.Directory.QueryData: errors while building dicts from rows cannot occur in the model, so every engine answer with rows succeeds.
