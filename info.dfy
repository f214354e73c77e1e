/** The information endpoints of InfoApi (stirling_pdf_client/info.py): the
    JSON answers turned into Status and LoadCount records (src/type/info_d.py),
    and `get_load` behind the version gate. */
module Info {
  import opened Common
  import opened Versions
  import opened Http
  import opened Gate

  /** The records keep whatever JSON value the server sent for each field. */
  datatype Status = Status(version: Json, status: Json)
  datatype LoadCount = LoadCount(endpoint: Json, count: Json)

  /** The minimum server version of `get_load`. */
  const LOAD_MIN_VERSION := "1.3.2"

  /** `resp.json()`. */
  function DecodeJson(resp: Response): (r: Result<Json>)
    ensures r.Ok? <==> resp.json.Some?
    ensures r.Err? ==> r.error == JsonDecodeError
  {
    match resp.json
    case Some(j) => Ok(j)
    case None => Err(JsonDecodeError)
  }

  /** `j.get(key, default)`: only a JSON object has `.get`. */
  function GetOr(j: Json, key: string, default: Json): (r: Result<Json>)
    ensures r.Ok? <==> j.JObj?
    ensures r.Err? ==> r.error == AttributeError("get")
    ensures j.JObj? && key in j.fields ==> r == Ok(j.fields[key])
    ensures j.JObj? && key !in j.fields ==> r == Ok(default)
  {
    match j
    case JObj(fields) => Ok(if key in fields then fields[key] else default)
    case _ => Err(AttributeError("get"))
  }

  /** The Status built by `get_status`. */
  function ToStatus(j: Json): Result<Status>
  {
    if j.JObj? then Ok(Status(GetOr(j, "version", JStr("")).value, GetOr(j, "status", JStr("")).value))
    else Err(AttributeError("get"))
  }

  /** The record built by the lambda of `get_load_all`. */
  function ToLoadCount(el: Json): Result<LoadCount>
  {
    if el.JObj? then Ok(LoadCount(GetOr(el, "endpoint", JStr("")).value, GetOr(el, "count", JNum(0)).value))
    else Err(AttributeError("get"))
  }

  /** `list(map(lambda, elems))`: stops at the first element that is not an object. */
  function LoadCounts(elems: seq<Json>): (r: Result<seq<LoadCount>>)
    ensures r.Ok? <==> forall i :: 0 <= i < |elems| ==> elems[i].JObj?
    ensures r.Ok? ==> |r.value| == |elems|
  {
    if elems == [] then Ok([])
    else
      match ToLoadCount(elems[0])
      case Err(e) => Err(e)
      case Ok(lc) =>
        match LoadCounts(elems[1..])
        case Err(e) => Err(e)
        case Ok(rest) => Ok([lc] + rest)
  }

  /** The mapping over whatever `resp.json()` gave: a list is mapped element by
      element; iterating an object or a string yields strings, which have no
      `.get`, so only the empty ones map to `[]`; any other value is not
      iterable. */
  function ToLoadCounts(j: Json): (r: Result<seq<LoadCount>>)
    ensures j.JArr? ==> r == LoadCounts(j.elems)
    ensures j.JNull? || j.JBool? || j.JNum? ==> r == Err(TypeError("object is not iterable"))
  {
    match j
    case JArr(elems) => LoadCounts(elems)
    case JObj(fields) => if |fields| == 0 then Ok([]) else Err(AttributeError("get"))
    case JStr(s) => if s == "" then Ok([]) else Err(AttributeError("get"))
    case _ => Err(TypeError("object is not iterable"))
  }

  /** Result<Json> followed by a conversion. */
  function Then<T>(r: Result<Json>, f: Json -> Result<T>): Result<T>
  {
    match r
    case Err(e) => Err(e)
    case Ok(j) => f(j)
  }

  function GetRequest(url: string, params: map<string, Value>): Request
  {
    Request("GET", url, params, map[], NoFiles)
  }

  function EndpointParams(endpoint: Option<string>): map<string, Value>
  {
    map["endpoint" := OptStr(endpoint)]
  }

  const UPTIME_URL := "/api/v1/info/uptime"
  const STATUS_URL := "/api/v1/info/status"
  const LOAD_URL := "/api/v1/info/load"
  const LOAD_UNIQUE_URL := "/api/v1/info/load/unique"
  const LOAD_ALL_URL := "/api/v1/info/load/all"
  const LOAD_ALL_UNIQUE_URL := "/api/v1/info/load/all/unique"

  class InfoApi {
    const client: HttpClient
    /** The argument of the decorator on `get_load`. */
    const loadMinVersion: string := LOAD_MIN_VERSION

    constructor (client: HttpClient)
      ensures this.client == client
    {
      this.client := client;
    }

    /** The instance `__dict__`: the private `__client`, name-mangled. */
    function Attributes(): seq<(string, HttpClient)>
    {
      [("_InfoApi__client", client)]
    }

    /** `self.get_client()`: the search over the instance attributes finds the
        client the instance was built with. */
    method FindClient() returns (r: Result<HttpClient>)
      ensures r == Ok(client)
    {
      InfoApiClientFound(client);
      r := GetClient(Attributes(), "InfoApi");
    }

    method GetUptime() returns (r: string)
      modifies client`sent
      ensures client.sent == old(client.sent) + [GetRequest(UPTIME_URL, map[])]
      ensures r == client.server(GetRequest(UPTIME_URL, map[])).text
    {
      var resp := client.Send(GetRequest(UPTIME_URL, map[]));
      r := resp.text;
    }

    method GetStatus() returns (r: Result<Status>)
      modifies client`sent
      ensures client.sent == old(client.sent) + [GetRequest(STATUS_URL, map[])]
      ensures r == Then(DecodeJson(client.server(GetRequest(STATUS_URL, map[]))), ToStatus)
    {
      var resp := client.Send(GetRequest(STATUS_URL, map[]));
      var j := DecodeJson(resp);
      r := Then(j, ToStatus);
    }

    /** `get_load` wrapped by `requires_server_version("1.3.2")`: the client is
        found through `get_client`, the gate may cache the version, and the
        request is sent only when the gate passes. */
    method GetLoad(endpoint: Option<string>) returns (r: Result<Json>)
      modifies client`sent, client`version
      ensures client.version == CachedVersion(old(client.version), client.serverStatus)
      ensures var server := ServerVersion(old(client.version), client.serverStatus);
              var req := GetRequest(LOAD_URL, EndpointParams(endpoint));
              if Compare(server, loadMinVersion) < 0 then
                r == Err(VersionError(GateMessage(server, loadMinVersion))) && client.sent == old(client.sent)
              else
                client.sent == old(client.sent) + [req] && r == DecodeJson(client.server(req))
    {
      var found := FindClient();
      var c := found.value;
      var gate := RequireServerVersion(c, loadMinVersion);
      if gate.Fail? {
        return Err(gate.error);
      }
      var resp := client.Send(GetRequest(LOAD_URL, EndpointParams(endpoint)));
      r := DecodeJson(resp);
    }

    method GetLoadUnique(endpoint: Option<string>) returns (r: Result<Json>)
      modifies client`sent
      ensures client.sent == old(client.sent) + [GetRequest(LOAD_UNIQUE_URL, EndpointParams(endpoint))]
      ensures r == DecodeJson(client.server(GetRequest(LOAD_UNIQUE_URL, EndpointParams(endpoint))))
    {
      var resp := client.Send(GetRequest(LOAD_UNIQUE_URL, EndpointParams(endpoint)));
      r := DecodeJson(resp);
    }

    method GetLoadAll(endpoint: Option<string>) returns (r: Result<seq<LoadCount>>)
      modifies client`sent
      ensures client.sent == old(client.sent) + [GetRequest(LOAD_ALL_URL, EndpointParams(endpoint))]
      ensures r == Then(DecodeJson(client.server(GetRequest(LOAD_ALL_URL, EndpointParams(endpoint)))), ToLoadCounts)
    {
      var resp := client.Send(GetRequest(LOAD_ALL_URL, EndpointParams(endpoint)));
      var j := DecodeJson(resp);
      r := Then(j, ToLoadCounts);
    }

    method GetLoadAllUnique() returns (r: Result<seq<LoadCount>>)
      modifies client`sent
      ensures client.sent == old(client.sent) + [GetRequest(LOAD_ALL_UNIQUE_URL, map[])]
      ensures r == Then(DecodeJson(client.server(GetRequest(LOAD_ALL_UNIQUE_URL, map[]))), ToLoadCounts)
    {
      var resp := client.Send(GetRequest(LOAD_ALL_UNIQUE_URL, map[]));
      var j := DecodeJson(resp);
      r := Then(j, ToLoadCounts);
    }
  }

  // ---------------------------------------------------------------------------
  // Properties

  /** `get_client` on an InfoApi finds the client it was built with. */
  lemma InfoApiClientFound(c: HttpClient)
    ensures GetClient([("_InfoApi__client", c)], "InfoApi") == Ok(c)
  {
    MangledNameMatches("InfoApi");
    assert "_" + "InfoApi" + "__client" == "_InfoApi__client";
  }

  /** `get_status` keeps the two fields it finds and puts "" for a missing one;
      anything but an object fails. */
  lemma StatusDefaults(j: Json)
    ensures ToStatus(j).Ok? <==> j.JObj?
    ensures j.JObj? ==>
              ToStatus(j).value.version == (if "version" in j.fields then j.fields["version"] else JStr(""))
              && ToStatus(j).value.status == (if "status" in j.fields then j.fields["status"] else JStr(""))
  {
  }

  /** An object with neither key gives the all-default record. */
  lemma EmptyObjectDefaults()
    ensures ToStatus(JObj(map[])) == Ok(Status(JStr(""), JStr("")))
    ensures ToLoadCount(JObj(map[])) == Ok(LoadCount(JStr(""), JNum(0)))
  {
  }

  /** For a list of objects the mapping keeps length and order, and each record
      carries the element's `endpoint` and `count`, "" and 0 when missing. */
  lemma {:induction false} LoadCountsPointwise(elems: seq<Json>)
    requires forall i :: 0 <= i < |elems| ==> elems[i].JObj?
    ensures ToLoadCounts(JArr(elems)).Ok?
    ensures var lcs := ToLoadCounts(JArr(elems)).value;
            |lcs| == |elems|
            && forall i :: 0 <= i < |elems| ==>
                 var f := elems[i].fields;
                 lcs[i] == LoadCount(if "endpoint" in f then f["endpoint"] else JStr(""),
                                     if "count" in f then f["count"] else JNum(0))
  {
    if elems != [] {
      LoadCountsPointwise(elems[1..]);
      var lcs := LoadCounts(elems).value;
      var rest := LoadCounts(elems[1..]).value;
      assert lcs == [ToLoadCount(elems[0]).value] + rest;
      forall i | 0 <= i < |elems|
        ensures var f := elems[i].fields;
                lcs[i] == LoadCount(if "endpoint" in f then f["endpoint"] else JStr(""),
                                    if "count" in f then f["count"] else JNum(0))
      {
        if i > 0 {
          assert lcs[i] == rest[i - 1];
          assert elems[i] == elems[1..][i - 1];
        }
      }
    }
  }

  /** Mapping a concatenation is the concatenation of the mappings, so the
      order of the records follows the order of the elements. */
  lemma {:induction false} LoadCountsAppend(a: seq<Json>, b: seq<Json>)
    requires LoadCounts(a).Ok? && LoadCounts(b).Ok?
    ensures LoadCounts(a + b) == Ok(LoadCounts(a).value + LoadCounts(b).value)
  {
    if a == [] {
      assert a + b == b;
      assert LoadCounts(a).value == [];
      assert LoadCounts(a).value + LoadCounts(b).value == LoadCounts(b).value;
    } else {
      assert (a + b)[1..] == a[1..] + b;
      assert (a + b)[0] == a[0];
      var lc := ToLoadCount(a[0]).value;
      assert LoadCounts(a) == Ok([lc] + LoadCounts(a[1..]).value);
      LoadCountsAppend(a[1..], b);
      assert LoadCounts(a + b) == Ok([lc] + LoadCounts(a[1..] + b).value);
      var a', b' := LoadCounts(a[1..]).value, LoadCounts(b).value;
      assert [lc] + (a' + b') == ([lc] + a') + b';
    }
  }

  /** The gate of `get_load` refuses a client that has neither `version` nor
      `server_status`, so such a client never gets its request sent. */
  lemma PlainClientRefused()
    ensures Compare(ServerVersion(None, None), LOAD_MIN_VERSION) < 0
  {
    GateExamples();
  }
}
