/**
 * helper/response: the JSON envelope every handler answers with. Writing to the
 * http.ResponseWriter is modelled as the Reply value the handler would write.
 */
module Response {
  import opened Base
  import opened Errors

  /** What a handler writes: the status line, the Content-Type header and the JSON body. */
  datatype Reply = Reply(status: int, contentType: string, body: Json)

  const JsonContentType := "application/json"

  /** The code Failed uses for an error that is not an Error. */
  const InternalServerErrorCode := "InternalServerError"

  /** The field of an envelope, Null when the body is not an object or lacks the key. */
  function Field(body: Json, key: string): Json {
    if body.Object? && key in body.fields then body.fields[key] else Null
  }

  /**
   * Success. The payload is given as it would marshal: Ok with its JSON value, or Err with
   * the text of the marshalling error, which then takes the place of the payload.
   */
  function Success(status: int, payload: Result<Json, string>): (r: Reply)
    ensures r.status == status && r.contentType == JsonContentType
    ensures r.body.Object? && r.body.fields.Keys == {"data", "error"}
    ensures payload.Ok? ==> Field(r.body, "data") == payload.value && Field(r.body, "error") == Null
    ensures payload.Err? ==> Field(r.body, "data") == Null && Field(r.body, "error") == Str(payload.error)
  {
    match payload
    case Ok(data) => Reply(status, JsonContentType, Object(map["data" := data, "error" := Null]))
    case Err(text) => Reply(status, JsonContentType, Object(map["data" := Null, "error" := Str(text)]))
  }

  /** The "error" object Failed builds for a non-nil error. */
  function ErrorObject(g: GoError): (j: Json)
    ensures j.Object? && {"code", "message"} <= j.fields.Keys
    ensures g.Plain? ==> j.fields.Keys == {"code", "message"}
    ensures g.Plain? ==> Field(j, "code") == Str(InternalServerErrorCode) && Field(j, "message") == Str(Text(g))
    ensures g.Coded? ==> Field(j, "code") == Str(g.err.code) && Field(j, "message") == Str(g.err.message)
    ensures g.Coded? ==> ("data" in j.fields.Keys <==> g.err.data != Null)
    ensures g.Coded? && g.err.data != Null ==> Field(j, "data") == g.err.data
  {
    match g
    case Plain(t) => Object(map["code" := Str(InternalServerErrorCode), "message" := Str(t)])
    case Coded(e) =>
      var fields := map["code" := Str(e.code), "message" := Str(e.message)];
      if e.data != Null then Object(fields["data" := e.data]) else Object(fields)
  }

  /** Failed: "data" is always null; "error" is null for a nil error, else the error object. */
  function Failed(status: int, err: Option<GoError>): (r: Reply)
    ensures r.status == status && r.contentType == JsonContentType
    ensures r.body.Object? && r.body.fields.Keys == {"data", "error"} && Field(r.body, "data") == Null
    ensures err.None? ==> Field(r.body, "error") == Null
    ensures err.Some? ==> Field(r.body, "error") == ErrorObject(err.value)
  {
    var e := if err.Some? then ErrorObject(err.value) else Null;
    Reply(status, JsonContentType, Object(map["data" := Null, "error" := e]))
  }

  /** How a client reads an Error back from a failure envelope's "error" object. */
  function ReadError(j: Json): Option<Error> {
    match (Field(j, "code"), Field(j, "message"))
    case (Str(code), Str(message)) => Some(Error(code, message, Field(j, "data")))
    case _ => None
  }

  /** An Error survives the failure envelope: code, message and data read back unchanged. */
  lemma FailedErrorReadsBack(status: int, e: Error)
    ensures ReadError(Field(Failed(status, Some(Coded(e))).body, "error")) == Some(e)
  {
    var j := ErrorObject(Coded(e));
    assert Field(j, "code") == Str(e.code) && Field(j, "message") == Str(e.message);
  }

  /**
   * Any other error reads back as an Error with code "InternalServerError", its text as the
   * message and no data, which GetStatusCode maps to 0.
   */
  lemma FailedPlainReadsBack(status: int, t: string)
    ensures var e := ReadError(Field(Failed(status, Some(Plain(t))).body, "error"));
            e == Some(Error(InternalServerErrorCode, t, Null)) && GetStatusCode(Coded(e.value)) == 0
  {
    var j := ErrorObject(Plain(t));
    assert Field(j, "code") == Str(InternalServerErrorCode) && Field(j, "message") == Str(t);
  }

  /** Success and Failed are told apart by the "error" field alone. */
  lemma SuccessAndFailedDiffer(status: int, data: Json, err: GoError)
    ensures Field(Success(status, Ok(data)).body, "error") == Null
    ensures Field(Failed(status, Some(err)).body, "error") != Null
  {
  }
}
