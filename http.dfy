/** The HTTP side of the client: requests as the client builds them, responses
    as the server returns them, an `httpx.Client` reduced to the request log it
    leaves behind, and `validate_response` (stirling_pdf_client/utils.py). */
module Http {
  import opened Common
  import opened Filename

  /** A decoded JSON document. */
  datatype Json =
    | JNull
    | JBool(b: bool)
    | JNum(n: int)
    | JStr(s: string)
    | JArr(elems: seq<Json>)
    | JObj(fields: map<string, Json>)

  /** A form or query value as the Python code passes it. Floating-point
      options are carried as reals and never computed with. */
  datatype Value =
    | VNone
    | VBool(b: bool)
    | VInt(i: int)
    | VReal(r: real)
    | VStr(s: string)
    | VHandle(h: Handle)
    | VDict(entries: map<string, Value>)

  /** The value of one entry of a `files` dict. */
  datatype Upload = NoFile | One(h: Handle) | Many(hs: seq<Handle>)

  /** The `files` argument: absent, a dict, or a list of (field, handle) pairs. */
  datatype Files = NoFiles | FileMap(entries: map<string, Upload>) | FileList(pairs: seq<(string, Handle)>)

  datatype Request = Request(
    verb: string,
    url: string,
    params: map<string, Value>,
    data: map<string, Value>,
    files: Files)

  /** A response: status code, headers, body bytes, body text, and the body read
      as JSON (`None` when `resp.json()` would raise). */
  datatype Response = Response(
    status: int,
    headers: Headers,
    content: Bytes,
    text: string,
    json: Option<Json>)

  /** `None` or a string, as an optional string argument is passed on. */
  function OptStr(s: Option<string>): (v: Value)
    ensures s.None? <==> v == VNone
    ensures s.Some? ==> v == VStr(s.value)
  {
    match s
    case None => VNone
    case Some(t) => VStr(t)
  }

  /** An `httpx.Client`. The server behind it is a fixed function of the
      request; every request sent is appended to `sent`. The two optional
      attributes the version gate looks for are `version` and `serverStatus`;
      a plain client has neither. */
  class HttpClient {
    const server: Request -> Response
    var sent: seq<Request>
    var version: Option<string>
    var serverStatus: Option<map<string, string>>

    constructor (server: Request -> Response)
      ensures this.server == server
      ensures sent == [] && version == None && serverStatus == None
    {
      this.server := server;
      sent := [];
      version := None;
      serverStatus := None;
    }

    /** `client.request(...)`: one exchange with the server. */
    method Send(req: Request) returns (resp: Response)
      modifies this`sent
      ensures sent == old(sent) + [req]
      ensures resp == server(req)
    {
      sent := sent + [req];
      resp := server(req);
    }
  }

  // ---------------------------------------------------------------------------
  // validate_response

  /** The status codes that have their own message. */
  const REASON_CODES: set<int> := {400, 401, 403, 404, 405, 413, 422, 500, 502, 503, 504}

  /** The fixed table of reason phrases. */
  function ReasonPhrase(status: int): (r: Option<string>)
    ensures r.Some? <==> status in REASON_CODES
    ensures r.Some? ==> |r.value| > 0 && r.value[0] != 'R'
  {
    match status
    case 400 => Some("Bad request")
    case 401 => Some("Unauthorized")
    case 403 => Some("Forbidden")
    case 404 => Some("Not found")
    case 405 => Some("Method not allowed")
    case 413 => Some("Payload too large")
    case 422 => Some("Unprocessable entity")
    case 500 => Some("Internal server error")
    case 502 => Some("Bad gateway")
    case 503 => Some("Service unavailable")
    case 504 => Some("Gateway timeout")
    case _ => None
  }

  const FALLBACK_PREFIX := "Request failed with status code "

  /** The message part before `": " + text`. */
  function FailureReason(status: int): (m: string)
    ensures status !in REASON_CODES ==> m == FALLBACK_PREFIX + IntToString(status)
    ensures status in REASON_CODES ==> m == ReasonPhrase(status).value
  {
    match ReasonPhrase(status)
    case Some(phrase) => phrase
    case None => FALLBACK_PREFIX + IntToString(status)
  }

  /** `validate_response`: the response itself for a 2xx status, otherwise the
      exception with the reason and the body text. */
  function ValidateResponse(resp: Response): (r: Result<Response>)
    ensures r.Ok? <==> 200 <= resp.status < 300
    ensures r.Ok? ==> r.value == resp
    ensures r.Err? ==> r.error.HttpStatusError?
  {
    if 200 <= resp.status < 300 then Ok(resp)
    else Err(HttpStatusError(FailureReason(resp.status) + ": " + resp.text))
  }

  /** A failing response's message starts with its reason and ends with `": "`
      and the body text. */
  lemma FailureMessageShape(resp: Response)
    requires !(200 <= resp.status < 300)
    ensures var m := ValidateResponse(resp).error.msg;
            var reason := FailureReason(resp.status);
            m[..|reason|] == reason && m[|reason|..] == ": " + resp.text
  {
  }

  /** Two statuses without a table entry that fail with the same body text
      produce different messages, so the fallback message identifies the status. */
  lemma FallbackIdentifiesStatus(a: Response, b: Response)
    requires !(200 <= a.status < 300) && !(200 <= b.status < 300)
    requires a.status !in REASON_CODES && b.status !in REASON_CODES
    requires a.text == b.text
    requires ValidateResponse(a) == ValidateResponse(b)
    ensures a.status == b.status
  {
    var ma := FailureReason(a.status);
    var mb := FailureReason(b.status);
    var ta := ": " + a.text;
    assert ValidateResponse(a) == Err(HttpStatusError(ma + ta));
    assert ValidateResponse(b) == Err(HttpStatusError(mb + ta));
    assert ma + ta == mb + ta;
    assert |ma| == |mb|;
    assert ma == (ma + ta)[..|ma|] == (mb + ta)[..|mb|] == mb;
    var p := |FALLBACK_PREFIX|;
    assert IntToString(a.status) == ma[p..] == mb[p..] == IntToString(b.status);
    IntToStringRoundTrip(a.status);
    IntToStringRoundTrip(b.status);
  }

  /** A table status and a fallback status never produce the same message. */
  lemma TableAndFallbackDiffer(a: Response, b: Response)
    requires !(200 <= a.status < 300) && !(200 <= b.status < 300)
    requires a.status in REASON_CODES && b.status !in REASON_CODES
    ensures ValidateResponse(a) != ValidateResponse(b)
  {
    var ma := ValidateResponse(a).error.msg;
    var mb := ValidateResponse(b).error.msg;
    assert mb[0] == FALLBACK_PREFIX[0] == 'R';
    assert ma[0] == ReasonPhrase(a.status).value[0];
  }
}
