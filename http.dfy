/** The responses the two routes send: a status code and a body. */
module Http {
  import opened Wrappers
  import opened JsValues
  import opened Store

  datatype ResponseBody =
    | ErrorJson(error: string)                           // `res.json({ error })`
    | CreatedJson(message: string, data: Option<Row>)    // `res.json({ message, data })`; no `data` key when absent
    | RunningText(dbTime: JsValue)                       // "Contact Backend API is running! DB Time: " and the time
    | PlainText(text: string)                            // `res.send(text)`

  datatype Response = Response(status: nat, body: ResponseBody)
}
