/** The analyzer: three independent threshold heuristics applied to every
    execution result, each match recorded as one crash snapshot.  Snapshot
    identifiers and the clock readings a snapshot takes are supplied, one stamp
    per snapshot. */
module Analysis {
  import opened Models
  import Decimal

  const Http5xxTag := "HTTP_5XX_SERVER_ERROR"
  const ClientErrorTag := "CLIENT_ERROR_OR_TIMEOUT"
  const HighLatencyTag := "HIGH_LATENCY"

  /** Durations above this many milliseconds count as high latency. */
  const LatencyLimitMs := 5000.0

  const UnknownField := "UNKNOWN"
  const SnapshotDescription := "Auto-generated fail"
  const NoCodeText := "N/A"

  /** A response arrived and its code is a server error. */
  predicate IsServerError(r: ExecutionResult)
  {
    r.response.Some? && r.response.value.statusCode >= ServerErrorFloor
  }

  /** The replay ended in a transport failure. */
  predicate IsClientError(r: ExecutionResult)
  {
    r.status == Error
  }

  /** The replay took strictly more than five seconds. */
  predicate IsSlow(r: ExecutionResult)
  {
    r.metadata.durationMs > LatencyLimitMs
  }

  /** Position of a tag in the fixed order of the heuristics. */
  function Rank(tag: string): nat
  {
    if tag == Http5xxTag then 0 else if tag == ClientErrorTag then 1 else 2
  }

  /** The tags `r` triggers, in the order the heuristics are tried. */
  function TagsOf(r: ExecutionResult): (tags: seq<string>)
    ensures |tags| <= 3
    ensures forall t :: t in tags ==> t == Http5xxTag || t == ClientErrorTag || t == HighLatencyTag
  {
    (if IsServerError(r) then [Http5xxTag] else [])
    + (if IsClientError(r) then [ClientErrorTag] else [])
    + (if IsSlow(r) then [HighLatencyTag] else [])
  }

  /** Each heuristic fires on its own condition, independently of the others:
      a result gets the server-error tag iff a response with a code of 500 or
      more is recorded, the transport-failure tag iff its status is ERROR, the
      latency tag iff it took more than 5000 ms; no other tag, each at most
      once, in that order. */
  lemma TriggeredTags(r: ExecutionResult)
    ensures var tags := TagsOf(r);
      && (Http5xxTag in tags <==> IsServerError(r))
      && (ClientErrorTag in tags <==> IsClientError(r))
      && (HighLatencyTag in tags <==> IsSlow(r))
      && (forall t :: t in tags ==> t == Http5xxTag || t == ClientErrorTag || t == HighLatencyTag)
      && (forall i, j :: 0 <= i < j < |tags| ==> Rank(tags[i]) < Rank(tags[j]))
      && |tags| == TriggerCount(r)
  {
  }

  /** The (result, tag) pairs one result contributes. */
  function FindingsOf(r: ExecutionResult): seq<(ExecutionResult, string)>
  {
    seq(|TagsOf(r)|, i requires 0 <= i < |TagsOf(r)| => (r, TagsOf(r)[i]))
  }

  /** The (result, tag) pairs of a list of results: result by result, in order. */
  function Findings(rs: seq<ExecutionResult>): seq<(ExecutionResult, string)>
  {
    if rs == [] then [] else Findings(rs[..|rs| - 1]) + FindingsOf(rs[|rs| - 1])
  }

  /** How many heuristics `r` triggers. */
  function TriggerCount(r: ExecutionResult): nat
  {
    (if IsServerError(r) then 1 else 0) + (if IsClientError(r) then 1 else 0) + (if IsSlow(r) then 1 else 0)
  }

  /** Total number of triggers over a list of results. */
  function TotalTriggers(rs: seq<ExecutionResult>): nat
  {
    if rs == [] then 0 else TotalTriggers(rs[..|rs| - 1]) + TriggerCount(rs[|rs| - 1])
  }

  /** Findings of a concatenation are the findings of each part, in order. */
  lemma {:induction false} FindingsAppend(a: seq<ExecutionResult>, b: seq<ExecutionResult>)
    ensures Findings(a + b) == Findings(a) + Findings(b)
    decreases |b|
  {
    if b == [] {
      assert a + b == a;
    } else {
      var ab, init, last := a + b, b[..|b| - 1], b[|b| - 1];
      assert ab[..|ab| - 1] == a + init && ab[|ab| - 1] == last;
      assert Findings(ab) == Findings(a + init) + FindingsOf(last);
      FindingsAppend(a, init);
      assert Findings(b) == Findings(init) + FindingsOf(last);
    }
  }

  /** There are exactly as many findings as triggered heuristics, so no input
      gives none and each result gives up to three. */
  lemma {:induction false} FindingsCount(rs: seq<ExecutionResult>)
    ensures |Findings(rs)| == TotalTriggers(rs)
    ensures rs == [] ==> Findings(rs) == []
  {
    if rs != [] {
      FindingsCount(rs[..|rs| - 1]);
      assert |TagsOf(rs[|rs| - 1])| == TriggerCount(rs[|rs| - 1]);
    }
  }

  /** A pair is a finding exactly when its result is in the list and the
      result triggers its tag. */
  lemma {:induction false} FindingsMembership(rs: seq<ExecutionResult>, r: ExecutionResult, tag: string)
    ensures (r, tag) in Findings(rs) <==> r in rs && tag in TagsOf(r)
  {
    if rs != [] {
      var init, last := rs[..|rs| - 1], rs[|rs| - 1];
      FindingsMembership(init, r, tag);
      assert rs == init + [last];
      if (r, tag) in FindingsOf(last) {
        var i :| 0 <= i < |FindingsOf(last)| && FindingsOf(last)[i] == (r, tag);
        assert TagsOf(last)[i] == tag;
      }
      if r == last && tag in TagsOf(last) {
        var i :| 0 <= i < |TagsOf(last)| && TagsOf(last)[i] == tag;
        assert FindingsOf(last)[i] == (r, tag);
      }
    }
  }

  /** When every result is a fast server error that is not a transport
      failure, each result gives exactly one finding, tagged as a server error. */
  lemma {:induction false} AllServerErrors(rs: seq<ExecutionResult>)
    requires forall i :: 0 <= i < |rs| ==> IsServerError(rs[i]) && !IsClientError(rs[i]) && !IsSlow(rs[i])
    ensures |Findings(rs)| == |rs|
    ensures forall i :: 0 <= i < |rs| ==> Findings(rs)[i] == (rs[i], Http5xxTag)
  {
    if rs != [] {
      var init, last := rs[..|rs| - 1], rs[|rs| - 1];
      AllServerErrors(init);
      assert TagsOf(last) == [Http5xxTag];
      assert FindingsOf(last) == [(last, Http5xxTag)];
    }
  }

  /** Who stamps a snapshot: its fresh identifier, the clock reading taken for
      its placeholder request and the one taken for the snapshot itself. */
  datatype Stamp = Stamp(id: string, requestTime: Instant, snapshotTime: Instant)

  /** The status code as text, or "N/A" when no response is recorded. */
  function CodeText(r: ExecutionResult): (s: string)
    ensures r.response.Some? ==> Decimal.IsDecimal(s) && Decimal.ParseInt(s) == r.response.value.statusCode
    ensures r.response.None? ==> s == NoCodeText
  {
    match r.response
    case Some(d) =>
      Decimal.IntToStringRoundTrip(d.statusCode);
      Decimal.IntToString(d.statusCode)
    case None => NoCodeText
  }

  /** The code part is exactly the canonical decimal text of the status code. */
  lemma CodeTextCanonical(r: ExecutionResult)
    requires r.response.Some?
    ensures CodeText(r) == Decimal.IntToString(r.response.value.statusCode)
  {
  }

  /** "Detected failure type: <tag>. Code: <code or N/A>". */
  function AnalysisText(failureType: string, r: ExecutionResult): string
  {
    "Detected failure type: " + failureType + ". Code: " + CodeText(r)
  }

  /** The snapshot recorded when `result` triggers `failureType`. */
  function CreateSnapshot(result: ExecutionResult, failureType: string, stamp: Stamp): CrashSnapshot
  {
    var placeholder := NewCapturedRequest(result.requestId, UnknownField, UnknownField, stamp.requestTime);
    NewCrashSnapshot(stamp.id, NewChaosScenario(result.scenarioName, SnapshotDescription, failureType),
                     [placeholder], [result], stamp.snapshotTime).(analysis := Some(AnalysisText(failureType, result)))
  }

  /** A snapshot describes the scenario the result ran under, is tagged with the
      heuristic that fired, holds exactly that result and one placeholder
      request with the result's identifier and "UNKNOWN" url and method, and
      carries the analysis text. */
  lemma SnapshotContent(result: ExecutionResult, failureType: string, stamp: Stamp)
    ensures var c := CreateSnapshot(result, failureType, stamp);
      && c.id == stamp.id && c.timestamp == stamp.snapshotTime
      && c.scenario.name == result.scenarioName && c.scenario.mutationType == failureType
      && c.scenario.description == SnapshotDescription && c.scenario.parameters == map[]
      && c.results == [result]
      && |c.requests| == 1 && c.requests[0].requestId == result.requestId
      && c.requests[0].url == UnknownField && c.requests[0].httpMethod == UnknownField
      && c.requests[0].headers == map[] && c.requests[0].body == Absent
      && c.analysis == Some(AnalysisText(failureType, result))
  {
  }

  /** The analysis text names the tag and then the code, which reads back as
      the recorded status code. */
  lemma AnalysisTextNamesCode(failureType: string, r: ExecutionResult)
    ensures var text, prefix := AnalysisText(failureType, r), "Detected failure type: " + failureType + ". Code: ";
      && text[..|prefix|] == prefix
      && (r.response.Some? ==> Decimal.IsDecimal(text[|prefix|..])
                               && Decimal.ParseInt(text[|prefix|..]) == r.response.value.statusCode
                               && text[|prefix|..] == Decimal.IntToString(r.response.value.statusCode))
      && (r.response.None? ==> text[|prefix|..] == "N/A")
  {
    var prefix := "Detected failure type: " + failureType + ". Code: ";
    assert AnalysisText(failureType, r)[|prefix|..] == CodeText(r);
  }

  /** The snapshot for finding `f` with stamp `s`. */
  function SnapshotOf(f: (ExecutionResult, string), s: Stamp): CrashSnapshot
  {
    CreateSnapshot(f.0, f.1, s)
  }

  /** The prefix of findings up to result `k` grows by that result's findings. */
  lemma FindingsStep(results: seq<ExecutionResult>, k: nat)
    requires k < |results|
    ensures Findings(results[..k + 1]) == Findings(results[..k]) + FindingsOf(results[k])
    ensures |Findings(results[..k + 1])| <= |Findings(results)|
  {
    assert results[..k + 1][..k] == results[..k];
    FindingsAppend(results[..k + 1], results[k + 1..]);
    assert results[..k + 1] + results[k + 1..] == results;
  }

  /** `crashes` is `before` followed by one snapshot of `res` per tag in `tags`,
      stamped with the next stamps. */
  ghost predicate Extends(crashes: seq<CrashSnapshot>, before: seq<CrashSnapshot>, res: ExecutionResult,
                          tags: seq<string>, stamps: nat -> Stamp)
  {
    && |crashes| == |before| + |tags|
    && crashes[..|before|] == before
    && forall i :: 0 <= i < |tags| ==> crashes[|before| + i] == CreateSnapshot(res, tags[i], stamps(|before| + i))
  }

  lemma ExtendsAppend(crashes: seq<CrashSnapshot>, before: seq<CrashSnapshot>, res: ExecutionResult,
                      tags: seq<string>, stamps: nat -> Stamp, tag: string)
    requires Extends(crashes, before, res, tags, stamps)
    ensures Extends(crashes + [CreateSnapshot(res, tag, stamps(|crashes|))], before, res, tags + [tag], stamps)
  {
    var c := crashes + [CreateSnapshot(res, tag, stamps(|crashes|))];
    assert c[..|before|] == crashes[..|before|];
  }

  /** Extending the snapshots of the first `k` results by those of result `k`
      gives the snapshots of the first `k + 1`. */
  lemma ExtendsByFindings(results: seq<ExecutionResult>, k: nat, stamps: nat -> Stamp,
                          before: seq<CrashSnapshot>, crashes: seq<CrashSnapshot>)
    requires k < |results|
    requires |before| == |Findings(results[..k])|
    requires forall j :: 0 <= j < |before| ==> before[j] == SnapshotOf(Findings(results[..k])[j], stamps(j))
    requires Extends(crashes, before, results[k], TagsOf(results[k]), stamps)
    ensures |crashes| == |Findings(results[..k + 1])|
    ensures forall j :: 0 <= j < |crashes| ==> crashes[j] == SnapshotOf(Findings(results[..k + 1])[j], stamps(j))
  {
    FindingsStep(results, k);
    forall j | 0 <= j < |crashes|
      ensures crashes[j] == SnapshotOf(Findings(results[..k + 1])[j], stamps(j))
    {
      if j < |before| {
        assert crashes[j] == crashes[..|before|][j];
      } else {
        var i := j - |before|;
        assert Findings(results[..k + 1])[j] == FindingsOf(results[k])[i] == (results[k], TagsOf(results[k])[i]);
        assert crashes[j] == CreateSnapshot(results[k], TagsOf(results[k])[i], stamps(j));
      }
    }
  }

  /** Appends to `crashes` one snapshot of `res` per heuristic it triggers:
      server error, then transport failure, then latency. */
  method RecordFindings(crashes: seq<CrashSnapshot>, res: ExecutionResult, stamps: nat -> Stamp)
    returns (next: seq<CrashSnapshot>)
    ensures Extends(next, crashes, res, TagsOf(res), stamps)
  {
    next := crashes;
    ghost var tags: seq<string> := [];
    assert Extends(next, crashes, res, tags, stamps);
    if res.response.Some? && res.response.value.statusCode >= ServerErrorFloor {
      ExtendsAppend(next, crashes, res, tags, stamps, Http5xxTag);
      next := next + [CreateSnapshot(res, Http5xxTag, stamps(|next|))];
      tags := tags + [Http5xxTag];
    }
    assert tags == if IsServerError(res) then [Http5xxTag] else [];
    if res.status == Error {
      ExtendsAppend(next, crashes, res, tags, stamps, ClientErrorTag);
      next := next + [CreateSnapshot(res, ClientErrorTag, stamps(|next|))];
      tags := tags + [ClientErrorTag];
    }
    assert tags == TagsOf(res)[..|tags|];
    if res.metadata.durationMs > LatencyLimitMs {
      ExtendsAppend(next, crashes, res, tags, stamps, HighLatencyTag);
      next := next + [CreateSnapshot(res, HighLatencyTag, stamps(|next|))];
      tags := tags + [HighLatencyTag];
    }
    assert tags == TagsOf(res);
  }

  /** Scans `results` and records one snapshot per triggered heuristic: results
      in order, and per result the server-error, transport-failure and latency
      checks in that order. */
  method AnalyzeResults(results: seq<ExecutionResult>, stamps: nat -> Stamp) returns (crashes: seq<CrashSnapshot>)
    ensures |crashes| == |Findings(results)| == TotalTriggers(results)
    ensures forall j :: 0 <= j < |crashes| ==> crashes[j] == SnapshotOf(Findings(results)[j], stamps(j))
  {
    FindingsCount(results);
    crashes := [];
    for k := 0 to |results|
      invariant |crashes| == |Findings(results[..k])|
      invariant forall j :: 0 <= j < |crashes| ==> crashes[j] == SnapshotOf(Findings(results[..k])[j], stamps(j))
    {
      var next := RecordFindings(crashes, results[k], stamps);
      ExtendsByFindings(results, k, stamps, crashes, next);
      crashes := next;
    }
    assert results[..|results|] == results;
  }
}
