/** The record types of the testing engine: captured requests, replay results,
    scenario descriptors and crash snapshots, with the defaults their fields take
    when a caller leaves them out.  Clocks and random identifiers are not part of
    the model: wherever the system reads the clock or draws a uuid, the value is
    a parameter supplied by the caller. */
module Models {

  datatype Option<+T> = None | Some(value: T)

  /** Status codes from this one on form the Server Error class (section 15.6
      of RFC 9110). */
  const ServerErrorFloor := 500

  /** A point in time, in milliseconds. */
  type Instant = real

  /** A value stored under a key of a structured (JSON object) body.  Nested
      objects, lists, floats and null are all `Other`: the mutator never looks
      inside them. */
  datatype Value = IntVal(i: int) | StrVal(s: string) | BoolVal(b: bool) | Other(repr: string)

  /** True when no key occurs twice, as in a dictionary. */
  predicate KeysDistinct(fs: seq<(string, Value)>)
  {
    forall i, j :: 0 <= i < j < |fs| ==> fs[i].0 != fs[j].0
  }

  /** An ordered dictionary: insertion order is kept, keys are distinct. */
  type Fields = fs: seq<(string, Value)> | KeysDistinct(fs) witness []

  function Keys(fs: seq<(string, Value)>): set<string>
  {
    set i | 0 <= i < |fs| :: fs[i].0
  }

  lemma KeysCons(fs: seq<(string, Value)>)
    requires fs != []
    ensures Keys(fs) == {fs[0].0} + Keys(fs[1..])
  {
    forall x | x in Keys(fs[1..]) ensures x in Keys(fs) {
      var i :| 0 <= i < |fs[1..]| && fs[1..][i].0 == x;
      assert fs[i + 1].0 == x;
    }
  }

  /** A request body: absent, raw text, or a structured object. */
  datatype Body = Absent | Raw(text: string) | Structured(fields: Fields)

  /** What a captured request says about the HTTP exchange, without identity. */
  datatype RequestMetadata = RequestMetadata(
    url: string,
    httpMethod: string,
    headers: map<string, string>,
    body: Body,
    timestamp: Instant)

  /** A request metadata record together with its identifier. */
  datatype CapturedRequest = CapturedRequest(
    requestId: string,
    url: string,
    httpMethod: string,
    headers: map<string, string>,
    body: Body,
    timestamp: Instant)
  {
    /** The metadata part of the request. */
    function Metadata(): (m: RequestMetadata)
      ensures m.url == url && m.httpMethod == httpMethod && m.headers == headers
      ensures m.body == body && m.timestamp == timestamp
    {
      RequestMetadata(url, httpMethod, headers, body, timestamp)
    }
  }

  /** The request made from `m` by giving it identifier `id`. */
  function WithId(m: RequestMetadata, id: string): (r: CapturedRequest)
    ensures r.requestId == id && r.Metadata() == m
  {
    CapturedRequest(id, m.url, m.httpMethod, m.headers, m.body, m.timestamp)
  }

  /** A captured request is exactly its metadata plus its identifier. */
  lemma CapturedRequestSplits(r: CapturedRequest)
    ensures WithId(r.Metadata(), r.requestId) == r
  {
  }

  /** A captured request built with the defaults: no headers, no body. */
  function NewCapturedRequest(requestId: string, url: string, httpMethod: string, now: Instant): (r: CapturedRequest)
    ensures r.requestId == requestId && r.url == url && r.httpMethod == httpMethod
    ensures r.headers == map[] && r.body == Absent && r.timestamp == now
  {
    CapturedRequest(requestId, url, httpMethod, map[], Absent, now)
  }

  datatype ExecutionMetadata = ExecutionMetadata(
    startTime: Instant,
    endTime: Option<Instant>,
    durationMs: real)

  /** Execution metadata with the defaults: not finished, zero duration. */
  function NewExecutionMetadata(now: Instant): (m: ExecutionMetadata)
    ensures m.startTime == now && m.endTime == None && m.durationMs == 0.0
  {
    ExecutionMetadata(now, None, 0.0)
  }

  datatype ResponseData = ResponseData(
    statusCode: int,
    headers: map<string, string>,
    body: Option<string>,
    error: Option<string>)

  /** Response data with only the status code given. */
  function NewResponseData(statusCode: int): (d: ResponseData)
    ensures d.statusCode == statusCode && d.headers == map[]
    ensures d.body == None && d.error == None
  {
    ResponseData(statusCode, map[], None, None)
  }

  /** The three outcome classes of a replay. */
  datatype Status = Success | Failure | Error

  datatype ExecutionResult = ExecutionResult(
    requestId: string,
    scenarioName: string,
    status: Status,
    response: Option<ResponseData>,
    metadata: ExecutionMetadata)

  /** An execution result with the defaults: no response, fresh metadata. */
  function NewExecutionResult(requestId: string, scenarioName: string, status: Status, now: Instant): (r: ExecutionResult)
    ensures r.requestId == requestId && r.scenarioName == scenarioName && r.status == status
    ensures r.response == None && r.metadata == NewExecutionMetadata(now)
  {
    ExecutionResult(requestId, scenarioName, status, None, NewExecutionMetadata(now))
  }

  datatype ChaosScenario = ChaosScenario(
    name: string,
    description: string,
    mutationType: string,
    parameters: map<string, Value>)

  /** A scenario descriptor with no parameters. */
  function NewChaosScenario(name: string, description: string, mutationType: string): (s: ChaosScenario)
    ensures s.name == name && s.description == description && s.mutationType == mutationType
    ensures s.parameters == map[]
  {
    ChaosScenario(name, description, mutationType, map[])
  }

  datatype CrashSnapshot = CrashSnapshot(
    id: string,
    scenario: ChaosScenario,
    requests: seq<CapturedRequest>,
    results: seq<ExecutionResult>,
    timestamp: Instant,
    analysis: Option<string>)

  /** A snapshot with no analysis text. */
  function NewCrashSnapshot(id: string, scenario: ChaosScenario, requests: seq<CapturedRequest>,
                            results: seq<ExecutionResult>, now: Instant): (c: CrashSnapshot)
    ensures c.id == id && c.scenario == scenario && c.requests == requests && c.results == results
    ensures c.timestamp == now && c.analysis == None
  {
    CrashSnapshot(id, scenario, requests, results, now, None)
  }
}
