/** How the pieces fit: results produced by the replayer, alone or through the
    scenario orchestrator, and what the analyzer makes of them.  The session
    that runs the baseline, the race, the double submission and the mutants one
    after another is stated here as a list of results, not as a command. */
module Pipeline {
  import opened Models
  import opened Replay
  import opened Chaos
  import opened Analysis
  import opened Mutation

  /** The heuristics fired by a replayed result: the server-error tag exactly
      for a response of 500 or more, the transport-failure tag exactly for a
      transport failure (whose recorded code 0 never looks like a server
      error), and the latency tag exactly when the clock readings are more than
      5000 ms apart. */
  lemma ReplayedTags(request: CapturedRequest, scenarioName: string, obs: Observation)
    requires WellTimed(obs)
    ensures var r := ResultOf(request, scenarioName, obs);
      && TagsOf(r) == (if obs.outcome.Response? && obs.outcome.code >= ServerErrorFloor then [Http5xxTag] else [])
                      + (if obs.outcome.TransportError? then [ClientErrorTag] else [])
                      + (if obs.end - obs.start > LatencyLimitMs then [HighLatencyTag] else [])
      && (IsServerError(r) <==> r.status == Failure)
  {
  }

  /** A transport failure answered quickly yields exactly one finding, tagged
      as a client error or timeout, and never a server-error finding. */
  lemma TransportFailureFinding(request: CapturedRequest, scenarioName: string, obs: Observation)
    requires WellTimed(obs) && obs.outcome.TransportError? && obs.end - obs.start <= LatencyLimitMs
    ensures var r := ResultOf(request, scenarioName, obs);
      Findings([r]) == [(r, ClientErrorTag)]
  {
    var r := ResultOf(request, scenarioName, obs);
    assert [r][..0] == [];
    assert TagsOf(r) == [ClientErrorTag];
  }

  /** A transport answer that is a fast server error. */
  predicate FastServerError(o: Observation)
  {
    o.outcome.Response? && o.outcome.code >= ServerErrorFloor && o.end - o.start <= LatencyLimitMs
  }

  /** The results of the session run with scenario `all`, in the order it gathers them: the
      baseline, the race runs, the two submissions, then every mutant replayed
      under "mutation_<mutant id>". */
  function SessionResults(request: CapturedRequest, baseline: Observation, race: seq<Observation>,
                          double: seq<Observation>, suffixes: seq<string>, mutantRuns: seq<Observation>)
    : seq<ExecutionResult>
    requires WellTimed(baseline)
    requires |race| == DefaultConcurrency && AllWellTimed(race)
    requires |double| == 2 && AllWellTimed(double)
    requires SuffixesFit(request.body, suffixes)
    requires |mutantRuns| == |suffixes| && AllWellTimed(mutantRuns)
  {
    [ResultOf(request, BaselineName, baseline)]
    + ScenarioResults(RaceConditionName, request, race)
    + ScenarioResults(DoubleSubmitName, request, double)
    + seq(|suffixes|, i requires 0 <= i < |suffixes| =>
            var m := MutantAt(request, i, suffixes[i]);
            ResultOf(m, "mutation_" + m.requestId, mutantRuns[i]))
  }

  /** Against a target that always answers quickly with a server error, a full
      session gathers 1 + 10 + 2 results plus one per mutant, and the analyzer
      records exactly one server-error snapshot for each of them. */
  lemma AlwaysFailingTarget(request: CapturedRequest, baseline: Observation, race: seq<Observation>,
                            double: seq<Observation>, suffixes: seq<string>, mutantRuns: seq<Observation>)
    requires WellTimed(baseline) && FastServerError(baseline)
    requires |race| == DefaultConcurrency && AllWellTimed(race)
    requires forall i :: 0 <= i < |race| ==> FastServerError(race[i])
    requires |double| == 2 && AllWellTimed(double)
    requires forall i :: 0 <= i < |double| ==> FastServerError(double[i])
    requires SuffixesFit(request.body, suffixes)
    requires |mutantRuns| == |suffixes| && AllWellTimed(mutantRuns)
    requires forall i :: 0 <= i < |mutantRuns| ==> FastServerError(mutantRuns[i])
    ensures var rs := SessionResults(request, baseline, race, double, suffixes, mutantRuns);
      && |rs| == 13 + MutantCount(request.body)
      && |Findings(rs)| == |rs|
      && forall i :: 0 <= i < |rs| ==> Findings(rs)[i] == (rs[i], Http5xxTag)
  {
    var rs := SessionResults(request, baseline, race, double, suffixes, mutantRuns);
    forall i | 0 <= i < |rs|
      ensures IsServerError(rs[i]) && !IsClientError(rs[i]) && !IsSlow(rs[i])
    {
      if i == 0 {
      } else if i < 11 {
        assert rs[i] == ScenarioResults(RaceConditionName, request, race)[i - 1];
      } else if i < 13 {
        assert rs[i] == ScenarioResults(DoubleSubmitName, request, double)[i - 11];
      } else {
        var m := MutantAt(request, i - 13, suffixes[i - 13]);
        assert rs[i] == ResultOf(m, "mutation_" + m.requestId, mutantRuns[i - 13]);
      }
    }
    AllServerErrors(rs);
  }
}
