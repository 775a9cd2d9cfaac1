/**
 * The Elexon BMRS client of src/fetching/elexon_client.py: the endpoint
 * table, URI-template formatting, request building and the classification
 * of a decoded JSON payload into table rows.  The network is a function
 * parameter from the request to what the HTTP layer hands back.
 */
module ElexonClient {
  import opened Wrappers
  import opened Json
  import opened Strings

  const DefaultBaseUrl: string := "https://data.elexon.co.uk/bmrs/api/v1"

  /**
   * The keys of ENDPOINTS, a representative subset.  Every entry of the
   * table maps its key to the URI template "/" + key, so the table is kept
   * as its keys and Template rebuilds the entry.
   */
  const EndpointKeys: seq<string> := [
    "datasets/AGWS",
    "datasets/AGWS/stream",
    "datasets/ATL",
    "datasets/ATL/stream",
    "datasets/FUELHH",
    "datasets/FUELHH/stream",
    "datasets/MID",
    "datasets/MID/stream",
    "balancing/acceptances/{acceptanceNumber}",
    "demand/actual/total",
    "generation/actual/per-type",
    "generation/actual/per-type/day-total",
    "generation/actual/per-type/wind-and-solar",
    "balancing/settlement/system-prices/{settlementDate}",
    "balancing/settlement/system-prices/{settlementDate}/{settlementPeriod}",
    "remit/{messageId}"
  ]

  /** `ENDPOINTS[key]`, when the key is listed. */
  function Template(key: string): (r: Option<string>)
    ensures r.Some? <==> key in EndpointKeys
    ensures r.Some? ==> r.value == "/" + key
  {
    if key in EndpointKeys then Some("/" + key) else None
  }

  // ---- the client --------------------------------------------------------

  datatype Client = Client(apiKey: string, baseUrl: string)

  /** Python truthiness of an optional string: present and non-empty. */
  predicate Truthy(s: Option<string>)
  {
    s.Some? && s.value != []
  }

  /**
   * ElexonApiClient(api_key): the explicit key, else the configured one;
   * when neither is a non-empty string the constructor raises ValueError.
   */
  function NewClient(apiKey: Option<string>, configuredKey: Option<string>): (r: Result<Client, string>)
    ensures r.Ok? <==> Truthy(apiKey) || Truthy(configuredKey)
    ensures r.Ok? ==> r.value.baseUrl == DefaultBaseUrl && r.value.apiKey != []
    ensures r.Ok? && Truthy(apiKey) ==> r.value.apiKey == apiKey.value
    ensures r.Ok? && !Truthy(apiKey) ==> r.value.apiKey == configuredKey.value
  {
    var key := if Truthy(apiKey) then apiKey else configuredKey;
    if Truthy(key) then Ok(Client(key.value, DefaultBaseUrl))
    else Err("Elexon API key must be provided (argument or in config).")
  }

  // ---- URI templates -----------------------------------------------------

  datatype FormatError =
    | MissingKey(name: string)   // KeyError: the template names a field not supplied
    | Malformed                  // ValueError or IndexError: an unbalanced brace or an empty field

  /** The position of the first c in s. */
  function IndexOf(s: string, c: char): (r: Option<nat>)
    ensures r.Some? ==> r.value < |s| && s[r.value] == c && c !in s[..r.value]
    ensures r.None? ==> c !in s
  {
    if s == [] then None
    else if s[0] == c then Some(0)
    else match IndexOf(s[1..], c)
      case None => None
      case Some(j) =>
        assert s[..j + 1] == [s[0]] + s[1..][..j];
        Some(j + 1)
  }

  function Prepend(a: string, r: Result<string, FormatError>): Result<string, FormatError>
  {
    match r
    case Ok(s) => Ok(a + s)
    case Err(e) => Err(e)
  }

  /**
   * str.format(**params) for templates whose fields are plain names, read
   * left to right: "{{" and "}}" stand for one brace, "{name}" for
   * params[name]; the first error met is the one raised.
   */
  function Format(t: string, params: map<string, string>): (r: Result<string, FormatError>)
    decreases |t|
  {
    if t == [] then Ok([])
    else if |t| >= 2 && t[0] == t[1] && (t[0] == '{' || t[0] == '}') then Prepend([t[0]], Format(t[2..], params))
    else if t[0] == '}' then Err(Malformed)
    else if t[0] == '{' then
      match IndexOf(t[1..], '}')
      case None => Err(Malformed)
      case Some(j) =>
        var name := t[1..j + 1];
        if name == [] then Err(Malformed)
        else if name !in params then Err(MissingKey(name))
        else Prepend(params[name], Format(t[j + 2..], params))
    else Prepend([t[0]], Format(t[1..], params))
  }

  /** The field names of a template in order, or None when it is malformed. */
  function Fields(t: string): (r: Option<seq<string>>)
    decreases |t|
  {
    if t == [] then Some([])
    else if |t| >= 2 && t[0] == t[1] && (t[0] == '{' || t[0] == '}') then Fields(t[2..])
    else if t[0] == '}' then None
    else if t[0] == '{' then
      match IndexOf(t[1..], '}')
      case None => None
      case Some(j) =>
        var name := t[1..j + 1];
        if name == [] then None
        else match Fields(t[j + 2..])
          case None => None
          case Some(rest) => Some([name] + rest)
    else Fields(t[1..])
  }

  /** The first field name that params does not supply. */
  function FirstMissing(names: seq<string>, params: map<string, string>): (r: Option<string>)
    ensures r.None? <==> forall i :: 0 <= i < |names| ==> names[i] in params
    ensures r.Some? ==> exists i :: 0 <= i < |names| && names[i] == r.value && r.value !in params &&
                          forall j :: 0 <= j < i ==> names[j] in params
  {
    if names == [] then None
    else if names[0] !in params then Some(names[0])
    else match FirstMissing(names[1..], params)
      case None => None
      case Some(n) =>
        var i :| 0 <= i < |names[1..]| && names[1..][i] == n && n !in params &&
                 forall j :: 0 <= j < i ==> names[1..][j] in params;
        assert names[i + 1] == n;
        Some(n)
  }

  /**
   * On a well-formed template, formatting fails exactly when a field is
   * missing, and then names the first missing field.
   */
  lemma {:induction false} FormatReportsFirstMissing(t: string, params: map<string, string>)
    ensures Fields(t).Some? ==> (Format(t, params).Ok? <==> FirstMissing(Fields(t).value, params).None?)
    ensures Fields(t).Some? && Format(t, params).Err? ==>
              Format(t, params) == Err(MissingKey(FirstMissing(Fields(t).value, params).value))
    decreases |t|
  {
    if t == [] || Fields(t).None? {
    } else if |t| >= 2 && t[0] == t[1] && (t[0] == '{' || t[0] == '}') {
      FormatReportsFirstMissing(t[2..], params);
    } else if t[0] == '{' {
      var j := IndexOf(t[1..], '}').value;
      var name := t[1..j + 1];
      if name in params {
        FormatReportsFirstMissing(t[j + 2..], params);
      }
    } else {
      FormatReportsFirstMissing(t[1..], params);
    }
  }

  /** Only the template's own fields matter: params that agree on them format it alike. */
  lemma {:induction false} FormatIgnoresExtraParams(t: string, p1: map<string, string>, p2: map<string, string>)
    requires Fields(t).Some?
    requires forall n :: n in Fields(t).value ==> (n in p1 <==> n in p2) && (n in p1 ==> p1[n] == p2[n])
    ensures Format(t, p1) == Format(t, p2)
    decreases |t|
  {
    if t == [] {
    } else if |t| >= 2 && t[0] == t[1] && (t[0] == '{' || t[0] == '}') {
      FormatIgnoresExtraParams(t[2..], p1, p2);
    } else if t[0] == '{' {
      var j := IndexOf(t[1..], '}').value;
      var name := t[1..j + 1];
      assert Fields(t).value == [name] + Fields(t[j + 2..]).value;
      FormatIgnoresExtraParams(t[j + 2..], p1, p2);
    } else {
      FormatIgnoresExtraParams(t[1..], p1, p2);
    }
  }

  /** No character of s is a brace. */
  predicate BraceFree(s: string)
  {
    forall i :: 0 <= i < |s| ==> s[i] != '{' && s[i] != '}'
  }

  /** A brace-free prefix is copied through: formatting "/" + key is "/" + formatting key. */
  lemma {:induction false} FormatLiteralPrefix(a: string, t: string, params: map<string, string>)
    requires BraceFree(a)
    ensures Format(a + t, params) == Prepend(a, Format(t, params))
    decreases |a|
  {
    if a == [] {
      assert a + t == t;
      match Format(t, params)
      case Ok(s) => assert a + s == s;
      case Err(_) =>
    } else {
      var u := a + t;
      assert u[0] == a[0] && u[1..] == a[1..] + t;
      assert Format(u, params) == Prepend([a[0]], Format(a[1..] + t, params));
      FormatLiteralPrefix(a[1..], t, params);
      match Format(t, params)
      case Ok(s) => assert [a[0]] + (a[1..] + s) == a + s;
      case Err(_) =>
    }
  }

  /** A brace-free prefix contributes no fields. */
  lemma {:induction false} FieldsLiteralPrefix(a: string, t: string)
    requires BraceFree(a)
    ensures Fields(a + t) == Fields(t)
    decreases |a|
  {
    if a == [] {
      assert a + t == t;
    } else {
      var u := a + t;
      assert u[0] == a[0] && u[1..] == a[1..] + t;
      FieldsLiteralPrefix(a[1..], t);
    }
  }

  /** A template without braces has no fields and formats to itself. */
  lemma {:induction false} FormatWithoutFields(t: string, params: map<string, string>)
    requires BraceFree(t)
    ensures Format(t, params) == Ok(t)
    ensures Fields(t) == Some([])
  {
    FormatLiteralPrefix(t, [], params);
    FieldsLiteralPrefix(t, []);
    assert t + [] == t;
  }

  // ---- requests ----------------------------------------------------------

  /** A query parameter value: the model's query strings and settlement periods. */
  datatype QueryValue = QStr(s: string) | QInt(i: int)

  /** GET base_url + path with header {"apiKey": key} and the query parameters. */
  datatype Request = Request(url: string, apiKey: string, params: map<string, QueryValue>)

  datatype CallError =
    | UnknownEndpoint(key: string)                    // KeyError before any request
    | MissingPathParameter(name: string, key: string) // ValueError naming the missing field
    | BadTemplate(key: string)                        // the formatting error itself propagates

  /** The path call_endpoint formats for a key, or the error it raises doing so. */
  function RequestPath(key: string, pp: map<string, string>): (r: Result<string, CallError>)
    ensures key !in EndpointKeys ==> r == Err(UnknownEndpoint(key))
    ensures key in EndpointKeys && Fields(key).Some? ==>
      var missing := FirstMissing(Fields(key).value, pp);
      (r.Err? <==> missing.Some?) && (missing.Some? ==> r == Err(MissingPathParameter(missing.value, key)))
    ensures r.Ok? ==> Format(key, pp).Ok? && r.value == "/" + Format(key, pp).value
  {
    if key !in EndpointKeys then Err(UnknownEndpoint(key))
    else
      FormatLiteralPrefix("/", key, pp);
      FormatReportsFirstMissing(key, pp);
      match Format(key, pp)
      case Err(MissingKey(n)) => Err(MissingPathParameter(n, key))
      case Err(Malformed) => Err(BadTemplate(key))
      case Ok(_) => Ok(Format(Template(key).value, pp).value)
  }

  /** The request call_endpoint issues, or the error it raises before issuing one. */
  function BuildRequest(c: Client, key: string, pathParams: Option<map<string, string>>,
                        queryParams: Option<map<string, QueryValue>>): (r: Result<Request, CallError>)
    ensures var pp := if pathParams.Some? then pathParams.value else map[];
      r.Err? <==> RequestPath(key, pp).Err?
    ensures var pp := if pathParams.Some? then pathParams.value else map[];
      r.Err? ==> r.error == RequestPath(key, pp).error
    ensures r.Ok? ==> var pp := if pathParams.Some? then pathParams.value else map[];
      r.value.url == c.baseUrl + RequestPath(key, pp).value && r.value.apiKey == c.apiKey
    ensures r.Ok? ==> r.value.params == if queryParams.Some? then queryParams.value else map[]
  {
    var pp := if pathParams.Some? then pathParams.value else map[];
    match RequestPath(key, pp)
    case Err(e) => Err(e)
    case Ok(path) => Ok(Request(c.baseUrl + path, c.apiKey, if queryParams.Some? then queryParams.value else map[]))
  }

  /** A key whose template has no fields ignores whatever path parameters it is given. */
  lemma PathParamsIgnoredWithoutFields(c: Client, key: string, p: Option<map<string, string>>, q: Option<map<string, QueryValue>>)
    requires key in EndpointKeys && BraceFree(key)
    ensures BuildRequest(c, key, p, q) == Ok(Request(c.baseUrl + ("/" + key), c.apiKey, if q.Some? then q.value else map[]))
  {
    var pp := if p.Some? then p.value else map[];
    assert RequestPath(key, pp) == Ok("/" + key) by {
      FormatWithoutFields(key, pp);
    }
  }

  // ---- payload classification -------------------------------------------

  /**
   * What the HTTP layer hands back: a RequestException (including a
   * non-2xx status), a body that does not decode as JSON (ValueError), or
   * the decoded payload.
   */
  datatype Response = RequestFailed | NotJson | Payload(body: Json)

  const MetadataKeys: seq<string> := ["apiVersion", "batchSize", "totalRecords", "status", "serviceType", "elapsedTime"]

  predicate NonEmptyList(j: Json)
  {
    j.JArr? && j.items != []
  }

  /** The first value of an object, in key order, that is a non-empty list. */
  function FirstNonEmptyList(fields: seq<(string, Json)>): (r: Option<seq<Json>>)
    ensures r.None? <==> forall i :: 0 <= i < |fields| ==> !NonEmptyList(fields[i].1)
    ensures r.Some? ==> exists i :: 0 <= i < |fields| && fields[i].1 == JArr(r.value) && r.value != [] &&
                          forall j :: 0 <= j < i ==> !NonEmptyList(fields[j].1)
  {
    if fields == [] then None
    else if NonEmptyList(fields[0].1) then Some(fields[0].1.items)
    else match FirstNonEmptyList(fields[1..])
      case None => None
      case Some(rows) =>
        var i :| 0 <= i < |fields[1..]| && fields[1..][i].1 == JArr(rows) && rows != [] &&
                 forall j :: 0 <= j < i ==> !NonEmptyList(fields[1..][j].1);
        assert fields[i + 1].1 == JArr(rows);
        Some(rows)
  }

  /** Some key is a non-empty string outside the six metadata keys. */
  predicate HasRecordKey(fields: seq<(string, Json)>)
  {
    exists i :: 0 <= i < |fields| && fields[i].0 != [] && fields[i].0 !in MetadataKeys
  }

  /** The rows `data` yields when it is itself an object. */
  function DataObjectRows(data: seq<(string, Json)>): seq<Json>
  {
    if exists i :: 0 <= i < |data| && data[i].1.JArr? then
      match FirstNonEmptyList(data)
      case Some(rows) => rows
      case None => [JObj(data)]
    else [JObj(data)]
  }

  /** _get: the rows of the DataFrame built from a response; never raises. */
  function PayloadRows(resp: Response): (r: seq<Json>)
    ensures !resp.Payload? ==> r == []
    ensures resp.Payload? && resp.body.JArr? ==> r == resp.body.items
    ensures resp.Payload? && !resp.body.JArr? && !resp.body.JObj? ==> r == []
    ensures resp.Payload? && resp.body.JObj? ==>
      var fields := resp.body.fields;
      var data := Get(fields, "data");
      if data.Some? && data.value.JArr? then r == data.value.items
      else if data.Some? && data.value.JObj? then
        var d := data.value.fields;
        (forall i :: 0 <= i < |d| ==> !NonEmptyList(d[i].1)) ==> r == [data.value]
      else
        (r == [resp.body] <==> HasRecordKey(fields)) && (r == [] <==> !HasRecordKey(fields))
    ensures resp.Payload? && resp.body.JObj? && Get(resp.body.fields, "data").Some? && Get(resp.body.fields, "data").value.JObj? ==>
      var d := Get(resp.body.fields, "data").value.fields;
      forall i :: 0 <= i < |d| && NonEmptyList(d[i].1) && (forall j :: 0 <= j < i ==> !NonEmptyList(d[j].1)) ==> r == d[i].1.items
  {
    match resp
    case RequestFailed => []
    case NotJson => []
    case Payload(body) =>
      match body
      case JArr(items) => items
      case JObj(fields) =>
        var data := Get(fields, "data");
        if data.Some? && data.value.JArr? then data.value.items
        else if data.Some? && data.value.JObj? then DataObjectRows(data.value.fields)
        else if HasRecordKey(fields) then [body]
        else []
      case _ => []
  }

  /** call_endpoint: build the request, then classify what comes back. */
  function CallEndpoint(c: Client, key: string, pathParams: Option<map<string, string>>,
                        queryParams: Option<map<string, QueryValue>>, respond: Request -> Response): (r: Result<seq<Json>, CallError>)
    ensures BuildRequest(c, key, pathParams, queryParams).Err? ==> r == Err(BuildRequest(c, key, pathParams, queryParams).error)
    ensures BuildRequest(c, key, pathParams, queryParams).Ok? ==> r == Ok(PayloadRows(respond(BuildRequest(c, key, pathParams, queryParams).value)))
  {
    match BuildRequest(c, key, pathParams, queryParams)
    case Err(e) => Err(e)
    case Ok(req) => Ok(PayloadRows(respond(req)))
  }

  // ---- get_dataset_stream ------------------------------------------------

  /** The keyword arguments of get_dataset_stream that become query parameters. */
  datatype StreamParam = From | To | PublishFrom | PublishTo | SettlementDate | SettlementPeriod

  /** The name each argument is sent under; `from_` travels as "from". */
  function WireName(p: StreamParam): string
  {
    match p
    case From => "from"
    case To => "to"
    case PublishFrom => "publishDateTimeFrom"
    case PublishTo => "publishDateTimeTo"
    case SettlementDate => "settlementDate"
    case SettlementPeriod => "settlementPeriod"
  }

  /** No two arguments share a wire name. */
  lemma WireNamesDistinct(p: StreamParam, q: StreamParam)
    ensures WireName(p) == WireName(q) ==> p == q
  {
  }

  /** The argument under key holds the optional string exactly when that string is truthy. */
  ghost predicate HoldsString(qp: map<StreamParam, QueryValue>, key: StreamParam, value: Option<string>)
  {
    (key in qp <==> Truthy(value)) && (key in qp ==> qp[key] == QStr(value.value))
  }

  /**
   * The query get_dataset_stream sends: each string argument when it is
   * truthy, the settlement period whenever it is given (0 included).
   */
  ghost predicate IsStreamQuery(qp: map<StreamParam, QueryValue>, from: Option<string>, to: Option<string>,
                                publishFrom: Option<string>, publishTo: Option<string>,
                                settlementDate: Option<string>, settlementPeriod: Option<int>)
  {
    && HoldsString(qp, From, from)
    && HoldsString(qp, To, to)
    && HoldsString(qp, PublishFrom, publishFrom)
    && HoldsString(qp, PublishTo, publishTo)
    && HoldsString(qp, SettlementDate, settlementDate)
    && (SettlementPeriod in qp <==> settlementPeriod.Some?)
    && (SettlementPeriod in qp ==> qp[SettlementPeriod] == QInt(settlementPeriod.value))
  }

  /** `if value: qp[key] = value` for one optional string argument. */
  method PutIfTruthy(qp: map<StreamParam, QueryValue>, key: StreamParam, value: Option<string>)
    returns (r: map<StreamParam, QueryValue>)
    requires key !in qp
    ensures HoldsString(r, key, value)
    ensures forall k :: k != key ==> (k in r <==> k in qp) && (k in qp ==> r[k] == qp[k])
  {
    r := qp;
    if Truthy(value) {
      r := r[key := QStr(value.value)];
    }
  }

  /** The qp dict of get_dataset_stream, built by successive insertions. */
  method DatasetStreamQuery(from: Option<string>, to: Option<string>, publishFrom: Option<string>, publishTo: Option<string>,
                            settlementDate: Option<string>, settlementPeriod: Option<int>)
    returns (qp: map<StreamParam, QueryValue>)
    ensures IsStreamQuery(qp, from, to, publishFrom, publishTo, settlementDate, settlementPeriod)
  {
    qp := map[];
    qp := PutIfTruthy(qp, From, from);
    qp := PutIfTruthy(qp, To, to);
    qp := PutIfTruthy(qp, PublishFrom, publishFrom);
    qp := PutIfTruthy(qp, PublishTo, publishTo);
    qp := PutIfTruthy(qp, SettlementDate, settlementDate);
    if settlementPeriod.Some? {
      qp := qp[SettlementPeriod := QInt(settlementPeriod.value)];
    }
  }

  /** The query as sent: every argument under its wire name. */
  function WireQuery(qp: map<StreamParam, QueryValue>): (r: map<string, QueryValue>)
    ensures forall p :: (WireName(p) in r <==> p in qp) && (p in qp ==> r[WireName(p)] == qp[p])
    ensures forall k :: k in r ==> exists p :: WireName(p) == k
  {
    map p | p in qp :: WireName(p) := qp[p]
  }

  /** Membership form of BraceFree, which the solver decides on a literal. */
  lemma BracesAbsent(s: string)
    requires '{' !in s && '}' !in s
    ensures BraceFree(s)
  {
    forall i | 0 <= i < |s|
      ensures s[i] != '{' && s[i] != '}'
    {
      assert s[i] in s;
    }
  }

  /** The listed keys with placeholders begin with 'b' or 'r'. */
  lemma PlaceholderKeys()
    ensures EndpointKeys[8][0] == 'b' && EndpointKeys[13][0] == 'b'
    ensures EndpointKeys[14][0] == 'b' && EndpointKeys[15][0] == 'r'
  {
  }

  /** The dataset keys hold no brace. */
  lemma DatasetKeys(i: int)
    requires 0 <= i < 8
    ensures '{' !in EndpointKeys[i] && '}' !in EndpointKeys[i]
  {
  }

  /** The demand and generation keys hold no brace. */
  lemma ReportKeys(i: int)
    requires 9 <= i < 13
    ensures '{' !in EndpointKeys[i] && '}' !in EndpointKeys[i]
  {
  }

  /**
   * Every listed key that starts with 'd' (a dataset or demand key) has no
   * placeholder, so a listed stream key formats to itself whatever the
   * dataset name was.
   */
  lemma ListedDatasetKeyBraceFree(key: string)
    requires key in EndpointKeys && |key| >= 1 && key[0] == 'd'
    ensures BraceFree(key)
  {
    var i :| 0 <= i < |EndpointKeys| && EndpointKeys[i] == key;
    PlaceholderKeys();
    if i < 8 {
      DatasetKeys(i);
    } else {
      ReportKeys(i);
    }
    BracesAbsent(key);
  }

  /**
   * get_dataset_stream: the "datasets/<dataset>/stream" endpoint, which
   * fails only for a dataset the table does not list, with the query above.
   */
  method GetDatasetStream(c: Client, dataset: string, from: Option<string>, to: Option<string>,
                          publishFrom: Option<string>, publishTo: Option<string>,
                          settlementDate: Option<string>, settlementPeriod: Option<int>, respond: Request -> Response)
    returns (r: Result<seq<Json>, CallError>)
    ensures var key := "datasets/" + dataset + "/stream";
      (r.Err? <==> key !in EndpointKeys) && (r.Err? ==> r.error == UnknownEndpoint(key))
    ensures r.Ok? ==> var url := c.baseUrl + ("/" + ("datasets/" + dataset + "/stream"));
      exists qp :: IsStreamQuery(qp, from, to, publishFrom, publishTo, settlementDate, settlementPeriod) &&
                   r.value == PayloadRows(respond(Request(url, c.apiKey, WireQuery(qp))))
  {
    var qp := DatasetStreamQuery(from, to, publishFrom, publishTo, settlementDate, settlementPeriod);
    var key := "datasets/" + dataset + "/stream";
    var pathParams := Some(map["dataset" := dataset]);
    r := CallEndpoint(c, key, pathParams, Some(WireQuery(qp)), respond);
    if key in EndpointKeys {
      ListedDatasetKeyBraceFree(key);
      PathParamsIgnoredWithoutFields(c, key, pathParams, Some(WireQuery(qp)));
      var url := c.baseUrl + ("/" + key);
      assert r.value == PayloadRows(respond(Request(url, c.apiKey, WireQuery(qp))));
    } else {
      assert BuildRequest(c, key, pathParams, Some(WireQuery(qp))).Err?;
    }
  }
}
