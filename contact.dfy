/**
 * `POST /api/contact`: the honeypot check, the required-field check, and
 * the single parameterised insert whose outcome decides the response.
 */
module Contact {
  import opened Wrappers
  import opened JsValues
  import opened Store
  import opened Http

  const BlockedMessage := "Form submission blocked."
  const RequiredMessage := "Name, email, subject, and message are required."
  const SubmittedMessage := "Contact form submitted successfully!"
  const FailedMessage := "Failed to submit contact form."

  /** The fields the handler destructures from the parsed body; a field the
      body lacks is `Undefined`. Any other field of the body is ignored. */
  datatype ContactForm = ContactForm(
    name: JsValue, email: JsValue, subject: JsValue, message: JsValue, trap: JsValue)

  /** Every one of the four stored fields is truthy. */
  predicate Complete(f: ContactForm)
  {
    Truthy(f.name) && Truthy(f.email) && Truthy(f.subject) && Truthy(f.message)
  }

  /** How the two checks classify a submission before the store is touched. */
  datatype Verdict =
    | Bot                               // the honeypot `trap` is filled in
    | Incomplete                        // a required field is missing or empty
    | Accepted(params: seq<JsValue>)    // the insert's parameters, `$1`..`$4`

  /** The checks in the handler's order: a truthy `trap` rejects first,
      whatever the other fields hold; then any falsy field among name,
      email, subject and message rejects; otherwise the four fields, and
      never `trap`, become the insert's parameters in that order. */
  function Classify(f: ContactForm): (v: Verdict)
    ensures v.Bot? <==> Truthy(f.trap)
    ensures v.Incomplete? <==> !Truthy(f.trap) && !Complete(f)
    ensures v.Accepted? ==> v.params == [f.name, f.email, f.subject, f.message]
    ensures v.Accepted? ==> forall i :: 0 <= i < |v.params| ==> Truthy(v.params[i])
  {
    if Truthy(f.trap) then Bot
    else if !Truthy(f.name) || !Truthy(f.email) || !Truthy(f.subject) || !Truthy(f.message) then Incomplete
    else Accepted([f.name, f.email, f.subject, f.message])
  }

  /** The response to a submission when the database behaves as `outcome`:
      400 for a bot or an incomplete form, 201 with the first returned row
      when the insert succeeds, and 500 with a fixed message, carrying no
      row and no error detail, when connecting or inserting fails. */
  function ContactResponse(f: ContactForm, outcome: StoreOutcome): (r: Response)
    ensures r.status == 400 <==> !Classify(f).Accepted?
    ensures r.status == 201 <==> Classify(f).Accepted? && outcome.Returns?
    ensures r.status == 500 <==> Classify(f).Accepted? && !outcome.Returns?
    ensures r.status == 201 ==> r.body == CreatedJson(SubmittedMessage, FirstRow(outcome.rows))
    ensures r.status != 201 ==> r.body.ErrorJson?
    ensures r.status == 500 ==> r.body.error == FailedMessage
  {
    match Classify(f)
    case Bot => Response(400, ErrorJson(BlockedMessage))
    case Incomplete => Response(400, ErrorJson(RequiredMessage))
    case Accepted(_) =>
      match outcome
      case Returns(rows) => Response(201, CreatedJson(SubmittedMessage, FirstRow(rows)))
      case _ => Response(500, ErrorJson(FailedMessage))
  }

  /** The queries a submission sends to the database: at most one, and only
      for an accepted form on a connection the pool handed out. */
  function ContactQueries(f: ContactForm, outcome: StoreOutcome): (qs: seq<Query>)
    ensures |qs| <= 1
    ensures qs != [] <==> Classify(f).Accepted? && !outcome.ConnectFails?
    ensures qs != [] ==> qs[0] == InsertContact(Classify(f).params)
  {
    match Classify(f)
    case Accepted(params) => if outcome.ConnectFails? then [] else [InsertContact(params)]
    case _ => []
  }

  /** The handler itself, step by step with its early returns. The client
      is released only after a successful insert: when the insert fails the
      client stays checked out. */
  method PostContact(db: Pool, f: ContactForm, outcome: StoreOutcome) returns (resp: Response)
    modifies db
    ensures resp == ContactResponse(f, outcome)
    ensures db.log == old(db.log) + ContactQueries(f, outcome)
    ensures db.checkedOut == old(db.checkedOut)
                             + (if Classify(f).Accepted? && outcome.QueryFails? then 1 else 0)
  {
    if Truthy(f.trap) {
      return Response(400, ErrorJson(BlockedMessage));
    }
    if !Truthy(f.name) || !Truthy(f.email) || !Truthy(f.subject) || !Truthy(f.message) {
      return Response(400, ErrorJson(RequiredMessage));
    }
    var connected := db.Connect(outcome);
    if !connected {
      return Response(500, ErrorJson(FailedMessage));
    }
    var rows := db.Run(InsertContact([f.name, f.email, f.subject, f.message]), outcome);
    if rows.None? {
      return Response(500, ErrorJson(FailedMessage));
    }
    db.Release();
    resp := Response(201, CreatedJson(SubmittedMessage, FirstRow(rows.value)));
  }

  /** A filled-in honeypot is answered 400 "Form submission blocked." and
      nothing reaches the database, whatever the other fields are, missing
      ones included: the trap check comes before the field check. */
  lemma TrapTakesPrecedence(f: ContactForm, outcome: StoreOutcome)
    requires Truthy(f.trap)
    ensures ContactResponse(f, outcome) == Response(400, ErrorJson(BlockedMessage))
    ensures ContactQueries(f, outcome) == []
  {
  }

  /** With the honeypot empty, a missing or empty name, email, subject or
      message is answered 400 with the required-fields message and nothing
      reaches the database. */
  lemma MissingFieldRejected(f: ContactForm, outcome: StoreOutcome)
    requires !Truthy(f.trap)
    requires !Truthy(f.name) || !Truthy(f.email) || !Truthy(f.subject) || !Truthy(f.message)
    ensures ContactResponse(f, outcome) == Response(400, ErrorJson(RequiredMessage))
    ensures ContactQueries(f, outcome) == []
  {
  }

  /** Validation is truthiness alone: any four non-empty strings, such as a
      whitespace-only name or an email "x", pass unchanged to the insert. */
  lemma NoFormatCheck(name: string, email: string, subject: string, message: string,
                      outcome: StoreOutcome)
    requires name != [] && email != [] && subject != [] && message != []
    ensures var f := ContactForm(Str(name), Str(email), Str(subject), Str(message), Undefined);
            && ContactResponse(f, outcome).status != 400
            && (!outcome.ConnectFails? ==>
                  ContactQueries(f, outcome)
                  == [InsertContact([Str(name), Str(email), Str(subject), Str(message)])])
  {
  }

  /** A valid submission on a working connection issues exactly one insert,
      with the parameters name, email, subject, message in that order. */
  lemma ExactlyOneInsert(f: ContactForm, outcome: StoreOutcome)
    requires !Truthy(f.trap) && Complete(f) && !outcome.ConnectFails?
    ensures ContactQueries(f, outcome) == [InsertContact([f.name, f.email, f.subject, f.message])]
  {
  }

  /** The honeypot's value never reaches the database or the response: two
      submissions that differ only in a falsy `trap` (absent, `""`, `null`,
      `0`, `false`) are handled identically. */
  lemma TrapNeverStored(f: ContactForm, trap: JsValue, outcome: StoreOutcome)
    requires !Truthy(f.trap) && !Truthy(trap)
    ensures ContactQueries(f.(trap := trap), outcome) == ContactQueries(f, outcome)
    ensures ContactResponse(f.(trap := trap), outcome) == ContactResponse(f, outcome)
  {
  }

  /** For a valid submission the store alone decides: a successful insert
      gives 201 whose `data` is exactly the first row the database returned
      (with the `id` and `submitted_at` it assigned); a failed connection or
      insert gives 500 with the fixed message. */
  lemma StoreDecidesValidSubmission(f: ContactForm, outcome: StoreOutcome)
    requires !Truthy(f.trap) && Complete(f)
    ensures outcome.Returns? && outcome.rows != [] ==>
              ContactResponse(f, outcome)
              == Response(201, CreatedJson(SubmittedMessage, Some(outcome.rows[0])))
    ensures !outcome.Returns? ==>
              ContactResponse(f, outcome) == Response(500, ErrorJson(FailedMessage))
  {
  }

  /** The scenarios of a blank name and of a filled honeypot: both 400,
      neither stored. */
  lemma RejectedScenarios(outcome: StoreOutcome)
    ensures var blank := ContactForm(Str(""), Str("a@x.com"), Str("Hi"), Str("Hello"), Undefined);
            ContactResponse(blank, outcome) == Response(400, ErrorJson(RequiredMessage))
            && ContactQueries(blank, outcome) == []
    ensures var bot := ContactForm(Str("Bot"), Str("b@x.com"), Str("x"), Str("y"), Str("1"));
            ContactResponse(bot, outcome) == Response(400, ErrorJson(BlockedMessage))
            && ContactQueries(bot, outcome) == []
  {
  }
}
