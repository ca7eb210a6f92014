/** The replayer: sends one captured request and turns what came back into an
    execution result.  The network is not modelled: what the transport answered
    (a response or a transport failure) and the two clock readings around the
    call are supplied as an `Observation`.  A transport failure is recorded as
    data, never raised. */
module Replay {
  import opened Models

  /** The status code recorded when no response arrived. */
  const NoResponseCode := 0
  /** The scenario name `execute` uses when none is given. */
  const BaselineName := "baseline"

  /** What the transport answered. */
  datatype TransportOutcome =
    | Response(code: int, headers: map<string, string>, text: string)
    | TransportError(message: string)

  /** One call's answer and the clock readings before and after it. */
  datatype Observation = Observation(outcome: TransportOutcome, start: Instant, end: Instant)

  predicate WellTimed(o: Observation)
  {
    o.start <= o.end
  }

  /** The payload handed to the transport. */
  datatype Payload = NoPayload | Content(text: string) | Json(fields: Fields)

  /** The arguments of the outbound call. */
  datatype OutboundRequest = OutboundRequest(
    httpMethod: string,
    url: string,
    headers: map<string, string>,
    payload: Payload)

  /** Whether a body counts as true: present and non-empty. */
  predicate Truthy(b: Body)
  {
    match b
    case Absent => false
    case Raw(t) => t != []
    case Structured(fs) => fs != []
  }

  /** The call `execute` makes: method, url and headers as captured; a non-empty
      text body as raw content, a non-empty structured body as JSON, and no
      payload otherwise. */
  function PrepareRequest(request: CapturedRequest): (o: OutboundRequest)
    ensures o.httpMethod == request.httpMethod && o.url == request.url && o.headers == request.headers
    ensures o.payload.NoPayload? <==> !Truthy(request.body)
    ensures o.payload.Content? <==> request.body.Raw? && Truthy(request.body)
    ensures o.payload.Json? <==> request.body.Structured? && Truthy(request.body)
    ensures o.payload.Content? ==> o.payload.text == request.body.text
    ensures o.payload.Json? ==> o.payload.fields == request.body.fields
  {
    var payload :=
      if !Truthy(request.body) then NoPayload
      else match request.body
        case Raw(t) => Content(t)
        case Structured(fs) => Json(fs)
        case Absent => NoPayload;
    OutboundRequest(request.httpMethod, request.url, request.headers, payload)
  }

  /** The outcome class of a status code. */
  function Classify(code: int): (s: Status)
    ensures s != Error
    ensures s == Success <==> code < ServerErrorFloor
  {
    if code < ServerErrorFloor then Success else Failure
  }

  /** The result `execute` returns for `request` under `scenarioName` when the
      transport answered as `obs` says.  A response keeps its code, headers and
      text and is classified by its code; a transport failure becomes an ERROR
      result with code 0 and the failure's message. */
  function ResultOf(request: CapturedRequest, scenarioName: string, obs: Observation): (r: ExecutionResult)
    requires WellTimed(obs)
    ensures r.requestId == request.requestId && r.scenarioName == scenarioName
    ensures r.metadata.startTime == obs.start && r.metadata.endTime == Some(obs.end)
    ensures r.metadata.durationMs == obs.end - obs.start >= 0.0
    ensures r.response.Some?
    ensures r.status == Error <==> obs.outcome.TransportError?
    ensures r.status == Failure <==> obs.outcome.Response? && obs.outcome.code >= ServerErrorFloor
    ensures obs.outcome.Response? ==>
              r.response.value == ResponseData(obs.outcome.code, obs.outcome.headers, Some(obs.outcome.text), None)
    ensures obs.outcome.TransportError? ==>
              r.response.value.statusCode == NoResponseCode
              && r.response.value.error == Some(obs.outcome.message)
              && r.response.value.headers == map[] && r.response.value.body == None
  {
    var metadata := ExecutionMetadata(obs.start, Some(obs.end), obs.end - obs.start);
    match obs.outcome
    case Response(code, headers, text) =>
      ExecutionResult(request.requestId, scenarioName, Classify(code),
                      Some(ResponseData(code, headers, Some(text), None)), metadata)
    case TransportError(message) =>
      ExecutionResult(request.requestId, scenarioName, Error,
                      Some(NewResponseData(NoResponseCode).(error := Some(message))), metadata)
  }

  /** A replayer owns one HTTP client for its whole session. */
  class Replayer {
    var timeout: real
    /** Whether the client is still open (it is closed by `Close`). */
    var clientOpen: bool

    constructor (timeout: real)
      ensures this.timeout == timeout && clientOpen
    {
      this.timeout := timeout;
      clientOpen := true;
    }

    /** Releases the client; closing twice is harmless. */
    method Close()
      modifies this
      ensures !clientOpen && timeout == old(timeout)
    {
      clientOpen := false;
    }

    /** Replays one request through the open client. */
    method Execute(request: CapturedRequest, scenarioName: string, obs: Observation) returns (r: ExecutionResult)
      requires clientOpen && WellTimed(obs)
      ensures r == ResultOf(request, scenarioName, obs)
    {
      r := ResultOf(request, scenarioName, obs);
    }

    /** Replays every request under the baseline name: one result per request,
        in input order.  A semaphore of size `parallelism` bounds the requests
        in flight; with size 0 any request would wait forever, and a negative
        size is refused. */
    method ExecuteBatch(requests: seq<CapturedRequest>, parallelism: int, observations: seq<Observation>)
      returns (results: seq<ExecutionResult>)
      requires clientOpen
      requires parallelism >= 1 || (parallelism == 0 && requests == [])
      requires |observations| == |requests|
      requires forall i :: 0 <= i < |observations| ==> WellTimed(observations[i])
      ensures |results| == |requests|
      ensures forall i :: 0 <= i < |results| ==> results[i] == ResultOf(requests[i], BaselineName, observations[i])
      ensures forall i :: 0 <= i < |results| ==>
                results[i].requestId == requests[i].requestId && results[i].scenarioName == BaselineName
    {
      results := [];
      for i := 0 to |requests|
        invariant |results| == i
        invariant forall j :: 0 <= j < i ==> results[j] == ResultOf(requests[j], BaselineName, observations[j])
      {
        var r := Execute(requests[i], BaselineName, observations[i]);
        results := results + [r];
      }
    }
  }
}
