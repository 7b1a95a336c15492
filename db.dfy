/**
 * The `cache` table (`id SERIAL PRIMARY KEY, message TEXT`) and the connection probe.
 * The table is only ever appended to; each insert commits on its own.
 */
module Db {
  import opened Wrappers

  datatype Row = Row(id: int, message: string)

  /** The ids of some rows, in table order. */
  function IdsOf(rows: seq<Row>): seq<int>
  {
    seq(|rows|, j requires 0 <= j < |rows| => rows[j].id)
  }

  /** The rows a run of successful inserts adds when the serial counter starts at `first`. */
  function RowsFrom(first: int, texts: seq<string>): seq<Row>
  {
    seq(|texts|, j requires 0 <= j < |texts| => Row(first + j, texts[j]))
  }

  /** SERIAL ids: positive, below the next value the counter hands out, and increasing in table order. */
  predicate SerialIds(rows: seq<Row>, nextId: int)
  {
    && (forall i :: 0 <= i < |rows| ==> 1 <= rows[i].id < nextId)
    && (forall i, j :: 0 <= i < j < |rows| ==> rows[i].id < rows[j].id)
  }

  /** Appending the rows of a run of inserts keeps the ids serial, and no new id was already in the table. */
  lemma {:induction false} RowsFromKeepSerial(rows: seq<Row>, nextId: int, texts: seq<string>)
    requires SerialIds(rows, nextId)
    requires nextId >= 1
    ensures SerialIds(rows + RowsFrom(nextId, texts), nextId + |texts|)
    ensures forall i, j :: 0 <= i < |rows| && 0 <= j < |texts| ==> rows[i].id != RowsFrom(nextId, texts)[j].id
  {
  }

  /** Two runs of inserts of the same texts, one after the other: entry j of each run holds text j. */
  lemma {:induction false} RowsFromTwice(rows: seq<Row>, first: int, texts: seq<string>, j: nat)
    requires j < |texts|
    ensures var all := rows + RowsFrom(first, texts) + RowsFrom(first + |texts|, texts);
            && |rows| + |texts| + j < |all|
            && all[|rows| + j] == Row(first + j, texts[j])
            && all[|rows| + |texts| + j] == Row(first + |texts| + j, texts[j])
  {
  }

  lemma {:induction false} RowsFromSnoc(first: int, texts: seq<string>, t: string)
    ensures RowsFrom(first, texts + [t]) == RowsFrom(first, texts) + [Row(first + |texts|, t)]
  {
  }

  lemma {:induction false} IdsOfAppend(a: seq<Row>, b: seq<Row>)
    ensures IdsOf(a + b) == IdsOf(a) + IdsOf(b)
  {
  }

  class Store {
    /** The table's rows, in insertion order. */
    var rows: seq<Row>
    /** The value the SERIAL sequence hands out next. */
    var nextId: int

    ghost predicate Valid()
      reads this
    {
      nextId >= 1 && SerialIds(rows, nextId)
    }

    /** A freshly created, empty table. */
    constructor ()
      ensures Valid() && rows == [] && nextId == 1
    {
      rows := [];
      nextId := 1;
    }

    /**
     * `INSERT INTO cache (message) VALUES (...) RETURNING id` and commit. `commits` says
     * whether the database accepts it; a failure is re-raised to the caller.
     */
    method Insert(message: string, commits: bool) returns (r: Result<int>)
      requires Valid()
      modifies this
      ensures Valid()
      ensures commits ==> r == Ok(old(nextId))
                          && rows == old(rows) + [Row(old(nextId), message)]
                          && nextId == old(nextId) + 1
      ensures !commits ==> r.Err? && rows == old(rows) && nextId == old(nextId)
      ensures r.Ok? ==> forall i :: 0 <= i < |old(rows)| ==> old(rows)[i].id != r.value
    {
      if !commits {
        return Err("insert failed");
      }
      ghost var before := rows;
      RowsFromKeepSerial(rows, nextId, [message]);
      assert RowsFrom(nextId, [message]) == [Row(nextId, message)];
      r := Ok(nextId);
      rows := rows + [Row(nextId, message)];
      nextId := nextId + 1;
    }
  }

  /** What the probe query `SELECT 1` does on an open connection. */
  datatype ProbeOutcome = Completes | Raises

  /** The process-wide connection: absent when initialisation failed. */
  datatype Connection = NoConnection | Open(probe: ProbeOutcome)

  /** The health probe: never raises, and reports a usable connection only when the probe completes. */
  function CheckDbConnection(conn: Connection): (healthy: bool)
    ensures conn.NoConnection? ==> !healthy
    ensures conn.Open? ==> (healthy <==> conn.probe == Completes)
  {
    match conn
    case NoConnection => false
    case Open(probe) => probe == Completes
  }
}
