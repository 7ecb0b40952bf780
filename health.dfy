/**
 * `GET /`: one `SELECT NOW()` on a pooled client; the route reports
 * whether the database answered.
 */
module Health {
  import opened Wrappers
  import opened JsValues
  import opened Store
  import opened Http

  const DegradedMessage := "Contact Backend API is running, but database connection failed."

  /** The response when the database behaves as `outcome`: 200 with the
      database's `now` when the query returns a row, 500 with the fixed
      degraded message otherwise. A query that resolves with no row also
      gives 500, since reading `now` of the missing first row throws inside
      the same `try`. */
  function HealthResponse(outcome: StoreOutcome): (r: Response)
    ensures r.status == 200 <==> outcome.Returns? && outcome.rows != []
    ensures r.status == 200 ==> r.body == RunningText(Lookup(outcome.rows[0].columns, "now"))
    ensures r.status != 200 ==> r == Response(500, PlainText(DegradedMessage))
  {
    match outcome
    case Returns(rows) =>
      (match FirstRow(rows)
       case Some(row) => Response(200, RunningText(Lookup(row.columns, "now")))
       case None => Response(500, PlainText(DegradedMessage)))
    case _ => Response(500, PlainText(DegradedMessage))
  }

  /** The route handler. The client is released after the query succeeds
      and before the first row is read; a failing query leaves it checked
      out. */
  method GetRoot(db: Pool, outcome: StoreOutcome) returns (resp: Response)
    modifies db
    ensures resp == HealthResponse(outcome)
    ensures db.log == old(db.log) + (if outcome.ConnectFails? then [] else [SelectNow])
    ensures db.checkedOut == old(db.checkedOut) + (if outcome.QueryFails? then 1 else 0)
  {
    var connected := db.Connect(outcome);
    if !connected {
      return Response(500, PlainText(DegradedMessage));
    }
    var rows := db.Run(SelectNow, outcome);
    if rows.None? {
      return Response(500, PlainText(DegradedMessage));
    }
    db.Release();
    var first := FirstRow(rows.value);
    if first.None? {
      return Response(500, PlainText(DegradedMessage));
    }
    resp := Response(200, RunningText(Lookup(first.value.columns, "now")));
  }

  /** `SELECT NOW()` yields exactly one row whenever it succeeds; for such a
      database the route answers 200 exactly when the query succeeds, and
      500 otherwise. */
  lemma HealthyIffQuerySucceeds(outcome: StoreOutcome)
    requires outcome.Returns? ==> |outcome.rows| == 1
    ensures HealthResponse(outcome).status == 200 <==> outcome.Returns?
    ensures !outcome.Returns? ==> HealthResponse(outcome).status == 500
  {
  }
}
