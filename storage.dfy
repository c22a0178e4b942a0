/** An abstract SQLite table as one connection sees it: the rows already
    committed, and the rows this connection has inserted but not yet
    committed. What the engine answers to a statement is a parameter. */
module Storage {
  import opened PyValue

  /** One inserted row: the INSERT's column names and the values bound to
      its `?` markers, in the same order. */
  datatype Row = Row(columns: seq<string>, values: seq<Value>)

  /** SQLite's answer to one execution: success, an integrity violation
      (sqlite3.IntegrityError) or any other engine error. */
  datatype EngineOutcome = Accepted | IntegrityError(message: string) | OperationalError(message: string)

  /** The engine's answer to executing `sql` with these parameters, given
      the rows the connection currently sees. */
  type InsertEngine = (seq<Row>, string, seq<Value>) -> EngineOutcome

  /** The rows are executed one after another on top of `base`, each
      seeing the rows before it, and the engine accepts every one. */
  predicate AllAccepted(engine: InsertEngine, base: seq<Row>, sql: string, rows: seq<Row>)
    decreases |rows|
  {
    || rows == []
    || (var n := |rows| - 1;
        AllAccepted(engine, base, sql, rows[..n]) && engine(base + rows[..n], sql, rows[n].values).Accepted?)
  }

  /** Acceptance of a batch implies acceptance of each of its prefixes. */
  lemma {:induction false} AllAcceptedPrefix(engine: InsertEngine, base: seq<Row>, sql: string, rows: seq<Row>, k: nat)
    requires k <= |rows| && AllAccepted(engine, base, sql, rows)
    ensures AllAccepted(engine, base, sql, rows[..k])
    decreases |rows|
  {
    if k < |rows| {
      var n := |rows| - 1;
      assert rows[..n][..k] == rows[..k];
      AllAcceptedPrefix(engine, base, sql, rows[..n], k);
    } else {
      assert rows[..k] == rows;
    }
  }

  /** One more accepted row extends an accepted batch. */
  lemma AllAcceptedSnoc(engine: InsertEngine, base: seq<Row>, sql: string, rows: seq<Row>, row: Row)
    requires AllAccepted(engine, base, sql, rows)
    requires engine(base + rows, sql, row.values).Accepted?
    ensures AllAccepted(engine, base, sql, rows + [row])
  {
    assert (rows + [row])[..|rows|] == rows;
  }

  /** A batch whose last row the engine rejects is not accepted. */
  lemma AllAcceptedLast(engine: InsertEngine, base: seq<Row>, sql: string, rows: seq<Row>, row: Row)
    requires !engine(base + rows, sql, row.values).Accepted?
    ensures !AllAccepted(engine, base, sql, rows + [row])
  {
    assert (rows + [row])[..|rows|] == rows;
  }

  class Table {
    var committed: seq<Row>
    var pending: seq<Row>

    /** A table as a freshly opened connection finds it. */
    constructor (rows: seq<Row>)
      ensures committed == rows && pending == []
    {
      committed := rows;
      pending := [];
    }

    /** What a query on this connection sees. */
    function Contents(): seq<Row>
      reads this
    {
      committed + pending
    }

    /** `conn.execute(sql, params)`: an accepted row joins the uncommitted
        rows; a failing statement changes nothing. */
    method Execute(sql: string, row: Row, engine: InsertEngine) returns (outcome: EngineOutcome)
      modifies this
      ensures outcome == engine(old(Contents()), sql, row.values)
      ensures committed == old(committed)
      ensures pending == if outcome.Accepted? then old(pending) + [row] else old(pending)
    {
      outcome := engine(committed + pending, sql, row.values);
      if outcome.Accepted? {
        pending := pending + [row];
      }
    }

    /** `conn.commit()` */
    method Commit()
      modifies this
      ensures committed == old(committed) + old(pending) && pending == []
    {
      committed := committed + pending;
      pending := [];
    }

    /** `conn.rollback()` */
    method Rollback()
      modifies this
      ensures committed == old(committed) && pending == []
    {
      pending := [];
    }
  }
}
