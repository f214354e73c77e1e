/** `MixApi.get_client` (stirling_pdf_client/mix.py) and the
    `requires_server_version` decorator (stirling_pdf_client/utils.py). */
module Gate {
  import opened Common
  import opened Versions
  import opened Http

  // ---------------------------------------------------------------------------
  // get_client

  /** An attribute name that `get_client` accepts. */
  predicate NameMatches(name: string)
  {
    Contains(Lower(name), "client")
  }

  /** Position of the first accepted attribute in `__dict__` order. */
  function FirstClientIndex<V>(attrs: seq<(string, V)>): (r: Option<nat>)
    ensures r.Some? ==> r.value < |attrs| && NameMatches(attrs[r.value].0)
                        && forall j :: 0 <= j < r.value ==> !NameMatches(attrs[j].0)
    ensures r.None? ==> forall j :: 0 <= j < |attrs| ==> !NameMatches(attrs[j].0)
  {
    if attrs == [] then None
    else if NameMatches(attrs[0].0) then Some(0)
    else
      match FirstClientIndex(attrs[1..])
      case None => None
      case Some(k) => Some(k + 1)
  }

  function NoClientMessage(className: string): string
  {
    "在 " + className + " 实例中找不到客户端对象"
  }

  /** `get_client()` on an instance of class `className` whose `__dict__`
      holds `attrs`: the value of the first attribute whose lower-cased name
      contains "client", otherwise AttributeError. */
  function GetClient<V>(attrs: seq<(string, V)>, className: string): (r: Result<V>)
    ensures r.Err? <==> forall j :: 0 <= j < |attrs| ==> !NameMatches(attrs[j].0)
    ensures r.Err? ==> r.error == AttributeError(NoClientMessage(className))
    ensures r.Ok? ==> exists i :: 0 <= i < |attrs| && r.value == attrs[i].1 && NameMatches(attrs[i].0)
                                  && forall j :: 0 <= j < i ==> !NameMatches(attrs[j].0)
  {
    match FirstClientIndex(attrs)
    case None => Err(AttributeError(NoClientMessage(className)))
    case Some(i) => Ok(attrs[i].1)
  }

  lemma {:induction false} LowerAppend(a: string, b: string)
    ensures Lower(a + b) == Lower(a) + Lower(b)
  {
    if a != [] {
      assert (a + b)[1..] == a[1..] + b;
      LowerAppend(a[1..], b);
    }
  }

  /** Any name that has "client" in some mix of cases inside it is accepted. */
  lemma NameWithClientMatches(prefix: string, word: string, suffix: string)
    requires Lower(word) == "client"
    ensures NameMatches(prefix + word + suffix)
  {
    LowerAppend(prefix + word, suffix);
    LowerAppend(prefix, word);
    var l := Lower(prefix + word + suffix);
    assert l == Lower(prefix) + "client" + Lower(suffix);
    assert ContainsAt(l, "client", |prefix|) by {
      assert l[|prefix|..|prefix| + 6] == "client";
    }
  }

  /** The private attribute `__client` of class `C` is stored as `_C__client`,
      and that name is accepted. */
  lemma MangledNameMatches(className: string)
    ensures NameMatches("_" + className + "__client")
  {
    assert Lower("client") == "client";
    NameWithClientMatches("_" + className + "__", "client", "");
    assert "_" + className + "__" + "client" + "" == "_" + className + "__client";
  }

  // ---------------------------------------------------------------------------
  // requires_server_version

  /** `server_status.get('version', '0.0.0')`. */
  function StatusVersion(serverStatus: map<string, string>): string
  {
    if "version" in serverStatus then serverStatus["version"] else "0.0.0"
  }

  /** The `version` attribute after the gate: an existing one is kept; a
      missing one is filled from `server_status` when that exists. */
  function CachedVersion(version: Option<string>, serverStatus: Option<map<string, string>>): (v: Option<string>)
    ensures version.Some? ==> v == version
    ensures version.None? && serverStatus.None? ==> v.None?
    ensures version.None? && serverStatus.Some? ==> v == Some(StatusVersion(serverStatus.value))
  {
    if version.None? && serverStatus.Some? then Some(StatusVersion(serverStatus.value)) else version
  }

  /** The version the gate compares: `getattr(client, 'version', '0.0.0')`
      after the caching step. */
  function ServerVersion(version: Option<string>, serverStatus: Option<map<string, string>>): string
  {
    match CachedVersion(version, serverStatus)
    case Some(v) => v
    case None => "0.0.0"
  }

  function GateMessage(serverVersion: string, minVersion: string): string
  {
    "在当前服务器版本(" + serverVersion + ")下不支持该方法，需要版本 >= " + minVersion
  }

  /** The decision: refuse exactly when the server version is below the minimum. */
  function GateCheck(serverVersion: string, minVersion: string): (o: Outcome)
    ensures o.Pass? <==> Compare(serverVersion, minVersion) >= 0
    ensures o.Fail? ==> o.error == VersionError(GateMessage(serverVersion, minVersion))
  {
    if Compare(serverVersion, minVersion) < 0 then Fail(VersionError(GateMessage(serverVersion, minVersion)))
    else Pass
  }

  /** The check the wrapper makes before calling the wrapped method; the
      method itself is called by the caller only on `Pass`. */
  method RequireServerVersion(client: HttpClient, minVersion: string) returns (o: Outcome)
    modifies client`version
    ensures client.version == CachedVersion(old(client.version), client.serverStatus)
    ensures o == GateCheck(ServerVersion(old(client.version), client.serverStatus), minVersion)
  {
    if client.version.None? && client.serverStatus.Some? {
      client.version := Some(StatusVersion(client.serverStatus.value));
    }
    var serverVersion := if client.version.Some? then client.version.value else "0.0.0";
    var c := CompareVersions(serverVersion, minVersion);
    if c < 0 {
      o := Fail(VersionError(GateMessage(serverVersion, minVersion)));
    } else {
      o := Pass;
    }
  }

  /** A server that meets a minimum also meets every lower minimum, and a newer
      server meets it as well. */
  lemma GateMonotone(server: string, newer: string, minVersion: string, lower: string)
    requires GateCheck(server, minVersion).Pass?
    requires Compare(newer, server) >= 0 && Compare(minVersion, lower) >= 0
    ensures GateCheck(newer, minVersion).Pass? && GateCheck(server, lower).Pass?
  {
    var s, n, m, l := NumericParts(server), NumericParts(newer), NumericParts(minVersion), NumericParts(lower);
    CompareAntisymmetric(m, s);
    CompareAntisymmetric(s, n);
    CompareTransitive(m, s, n);
    CompareAntisymmetric(n, m);
    CompareAntisymmetric(l, m);
    CompareTransitive(l, m, s);
    CompareAntisymmetric(s, l);
  }

  /** Every version passes a gate set at itself. */
  lemma GateAtOwnVersion(v: string)
    ensures GateCheck(v, v).Pass?
  {
    CompareReflexive(NumericParts(v));
  }

  /** A client with neither attribute counts as "0.0.0" and nothing is cached. */
  lemma PlainClientIsZero()
    ensures CachedVersion(None, None) == None
    ensures ServerVersion(None, None) == "0.0.0"
  {
  }
}
