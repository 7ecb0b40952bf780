/**
 * The connection pool of the PostgreSQL client as the handlers see it:
 * a client is checked out, one query runs on it, and the client is given
 * back. What the database does on a request (refuse the connection, fail
 * the query, or return rows) is a parameter of the model.
 */
module Store {
  import opened Wrappers
  import opened JsValues

  /** A row returned by the database: its columns by name. For an insert
      with `RETURNING *` these include the `id` and `submitted_at` the
      database assigns. */
  datatype Row = Row(columns: map<string, JsValue>)

  /** The queries the handlers issue. The SQL text is fixed per query; only
      the parameters vary. */
  datatype Query =
    | SelectNow                              // the health check's `SELECT NOW()`
    | InsertContact(params: seq<JsValue>)    // the parameterised insert, `$1`..`$4`

  /** What the database does on one request. */
  datatype StoreOutcome =
    | ConnectFails               // `pool.connect()` rejects
    | QueryFails                 // the query on the acquired client rejects
    | Returns(rows: seq<Row>)    // the query resolves with these rows

  /** The first row of a result, as `result.rows[0]` reads it: absent when
      there is none. */
  function FirstRow(rows: seq<Row>): (r: Option<Row>)
    ensures r.Some? <==> rows != []
    ensures r.Some? ==> r.value == rows[0]
  {
    if rows == [] then None else Some(rows[0])
  }

  class Pool {
    /** Clients handed out by `connect` and not yet released. */
    var checkedOut: nat
    /** Every query issued through the pool, oldest first. */
    var log: seq<Query>

    constructor ()
      ensures checkedOut == 0 && log == []
    {
      checkedOut := 0;
      log := [];
    }

    /** `pool.connect()`: hands out a client unless the database refuses. */
    method Connect(outcome: StoreOutcome) returns (ok: bool)
      modifies this
      ensures ok <==> !outcome.ConnectFails?
      ensures checkedOut == old(checkedOut) + (if ok then 1 else 0)
      ensures log == old(log)
    {
      ok := !outcome.ConnectFails?;
      if ok {
        checkedOut := checkedOut + 1;
      }
    }

    /** `client.query(q)` on a client that is checked out: the query is
        issued, and it yields the rows or fails. */
    method Run(q: Query, outcome: StoreOutcome) returns (rows: Option<seq<Row>>)
      requires checkedOut > 0
      modifies this
      ensures rows == if outcome.Returns? then Some(outcome.rows) else None
      ensures log == old(log) + [q]
      ensures checkedOut == old(checkedOut)
    {
      log := log + [q];
      rows := if outcome.Returns? then Some(outcome.rows) else None;
    }

    /** `client.release()`: gives a client back to the pool. */
    method Release()
      requires checkedOut > 0
      modifies this
      ensures checkedOut == old(checkedOut) - 1
      ensures log == old(log)
    {
      checkedOut := checkedOut - 1;
    }
  }
}
