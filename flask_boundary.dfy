/** The Flask-level error translators and the response post-processor of
    `library/flask.py`. How they are registered with Flask is not part of this
    model; they are plain functions over the exception kinds. */
module FlaskBoundary {
  import opened Wrappers
  import opened JsonValues
  import opened Exceptions
  import opened Api

  /** `handle_pydantic_validation_errors`: the same grouping loop and envelope as
      the handler-level translator, so it delegates to it (logging left out). */
  method HandlePydanticValidationErrors(errs: seq<ErrorRecord>) returns (out: Envelope)
    ensures out == ValidationFailedOutput(errs)
    ensures out.data["errors"] == ErrorsJson(Grouped(errs))
  {
    out := HandleValidationFailedExc(errs);
  }

  const ClientErrorCode: string := "CLIENT_ERROR"
  const MLErrorCode: string := "ML_ERROR"
  const InternalErrorCode: string := "INTERNAL_SERVER_ERROR"
  const InternalErrorDescription: string := "Internal Server Error."

  /** `handle_400`: a CustomException is checked first, then an
      MLModelException; anything else is re-raised unchanged (`Err(exc)`). */
  function Handle400(exc: Exception): (r: Result<Envelope, Exception>)
    ensures exc.CustomException? ==> r == Ok(Error(ClientErrorCode, JStr(Description(exc)), map[]))
    ensures exc.MLModelException? ==> r == Ok(Error(MLErrorCode, JStr(Description(exc)), map[]))
    ensures !exc.CustomException? && !exc.MLModelException? ==> r == Err(exc)
    ensures r.Ok? ==> r.value.status == FAILURE
  {
    if exc.CustomException? then Ok(Error(ClientErrorCode, JStr(Description(exc)), map[]))
    else if exc.MLModelException? then Ok(Error(MLErrorCode, JStr(Description(exc)), map[]))
    else Err(exc)
  }

  /** An MLModelException raised without a description reports the class default. */
  lemma MLDefaultDescription()
    ensures Handle400(MLModelException(None)).value.data["description"] == JStr(MLModelDefaultDescription)
    ensures Handle400(MLModelException(None)).value.data["code"] == JStr(MLErrorCode)
  {
  }

  /** `handle_generic_exception`: the same envelope whatever the exception. */
  function HandleGenericException(exc: Exception): (r: Envelope)
    ensures r.status == FAILURE && r.message == FailureMessage
    ensures r.data == map["code" := JStr(InternalErrorCode), "description" := JStr(InternalErrorDescription)]
  {
    Error(InternalErrorCode, JStr(InternalErrorDescription), map[])
  }

  // ---------------------------------------------------------------------------
  // Response post-processing

  /** A response body: JSON that `json.loads` accepts, or text it rejects. */
  datatype Body = Parsed(value: Json) | Unparsable(text: string)

  datatype Response = Response(body: Body, status: int, headers: map<string, string>)

  /** The HTTP status `get_output` assigns to a body's `status` field, if any. */
  function StatusFor(fields: map<string, Json>): Option<int> {
    if "status" !in fields then None
    else if fields["status"] == JStr("SUCCESS") then Some(200)
    else if fields["status"] == JStr("FAILURE") then Some(400)
    else if fields["status"] == JStr("INTERNAL_SERVER_ERROR") then Some(500)
    else None
  }

  /** `get_output`: re-serialises a JSON object body under the HTTP status its
      `status` field selects and keeps the headers. A body that does not parse
      or is not an object (`.get` raises, the `except` catches it) comes back
      as it was, and so does an object whose `status` is missing or not one of
      the three (the `return response` after the `try`). */
  function GetOutput(resp: Response): (r: Response)
    ensures r.headers == resp.headers && r.body == resp.body
    ensures r.status in {200, 400, 500} || r == resp
    ensures resp.body.Unparsable? || !resp.body.value.JObject? ==> r == resp
    ensures resp.body.Parsed? && resp.body.value.JObject? ==>
      var f := resp.body.value.fields;
      && ("status" in f && f["status"] == JStr("SUCCESS") ==> r == resp.(status := 200))
      && ("status" in f && f["status"] == JStr("FAILURE") ==> r == resp.(status := 400))
      && ("status" in f && f["status"] == JStr("INTERNAL_SERVER_ERROR") ==> r == resp.(status := 500))
      && ("status" !in f || f["status"] !in {JStr("SUCCESS"), JStr("FAILURE"), JStr("INTERNAL_SERVER_ERROR")}
          ==> r == resp)
  {
    match resp.body
    case Parsed(JObject(fields)) =>
      (match StatusFor(fields)
       case Some(code) => Response(resp.body, code, resp.headers)
       case None => resp)
    case _ => resp
  }

  /** The response carrying an envelope as its JSON body. */
  function EnvelopeResponse(e: Envelope, status: int, headers: map<string, string>): Response {
    Response(Parsed(e.AsJson()), status, headers)
  }

  /** Every envelope gets 200 when it succeeded and 400 when it failed, with the
      same body, whatever status the response had before. */
  lemma EnvelopeStatusMapping(e: Envelope, status: int, headers: map<string, string>)
    ensures GetOutput(EnvelopeResponse(e, status, headers)).status == (if e.status == SUCCESS then 200 else 400)
    ensures GetOutput(EnvelopeResponse(e, status, headers)).body == Parsed(e.AsJson())
  {
    assert e.AsDict()["status"] == JStr(e.status.Value());
  }

  /** `APIOutput.error` always writes status FAILURE, so the 500 branch of
      `get_output` is unreachable for any envelope, and the generic-exception
      envelope leaves with 400. */
  lemma InternalServerErrorUnreachable(e: Envelope, exc: Exception, status: int, headers: map<string, string>)
    ensures GetOutput(EnvelopeResponse(e, status, headers)).status != 500
    ensures GetOutput(EnvelopeResponse(HandleGenericException(exc), status, headers)).status == 400
  {
    EnvelopeStatusMapping(e, status, headers);
    EnvelopeStatusMapping(HandleGenericException(exc), status, headers);
  }

  /** A body tagged INTERNAL_SERVER_ERROR would get 500, but only one written by
      hand, not an envelope. */
  lemma InternalServerErrorTag(fields: map<string, Json>, status: int, headers: map<string, string>)
    requires "status" in fields && fields["status"] == JStr("INTERNAL_SERVER_ERROR")
    ensures GetOutput(Response(Parsed(JObject(fields)), status, headers)) == Response(Parsed(JObject(fields)), 500, headers)
  {
  }

  /** A response leaves `get_output` with 500 only when its body is an object
      tagged INTERNAL_SERVER_ERROR, or when it already had 500 and `get_output`
      left it alone. */
  lemma InternalServerErrorOnlyIf(resp: Response)
    ensures GetOutput(resp).status == 500 ==>
      || (resp.body.Parsed? && resp.body.value.JObject? && "status" in resp.body.value.fields
          && resp.body.value.fields["status"] == JStr("INTERNAL_SERVER_ERROR"))
      || (resp.status == 500 && GetOutput(resp) == resp)
  {
  }
}
