/** The scenario orchestrator: a scenario name chooses how many times one
    request is replayed and under which tags.  The runs of one scenario are
    launched together and gathered in launch order; the model keeps that order
    and replays them one after another.  Each run's transport answer and clock
    readings are supplied, one observation per run. */
module Chaos {
  import opened Models
  import Decimal
  import opened Replay

  const DoubleSubmitName := "double_submit"
  const RaceConditionName := "race_condition"
  /** How many runs the race scenario launches when not told otherwise. */
  const DefaultConcurrency := 10

  /** Number of runs the named scenario launches. */
  function FanOut(scenario: string): nat
  {
    if scenario == DoubleSubmitName then 2
    else if scenario == RaceConditionName then DefaultConcurrency
    else 0
  }

  /** The tag of run `i` of the race scenario: "race_run_<i>". */
  function RaceTag(i: nat): string
  {
    "race_run_" + Decimal.IntToString(i)
  }

  /** The tag of run `i` of the double-submit scenario. */
  function DoubleTag(i: nat): string
    requires i < 2
  {
    if i == 0 then "double_submit_1" else "double_submit_2"
  }

  /** The tag of run `i` of the named scenario. */
  function ScenarioTag(scenario: string, i: nat): string
    requires i < FanOut(scenario)
  {
    if scenario == DoubleSubmitName then DoubleTag(i) else RaceTag(i)
  }

  predicate AllWellTimed(observations: seq<Observation>)
  {
    forall i :: 0 <= i < |observations| ==> WellTimed(observations[i])
  }

  /** The results the named scenario gathers for `request`. */
  function ScenarioResults(scenario: string, request: CapturedRequest, observations: seq<Observation>): seq<ExecutionResult>
    requires |observations| == FanOut(scenario) && AllWellTimed(observations)
  {
    seq(FanOut(scenario), i requires 0 <= i < FanOut(scenario) =>
      ResultOf(request, ScenarioTag(scenario, i), observations[i]))
  }

  /** The race tags are pairwise distinct. */
  lemma RaceTagsDistinct(i: nat, j: nat)
    requires i != j
    ensures RaceTag(i) != RaceTag(j)
  {
    Decimal.IntToStringInjective(i, j);
    var p := "race_run_";
    assert RaceTag(i)[|p|..] == Decimal.IntToString(i);
    assert RaceTag(j)[|p|..] == Decimal.IntToString(j);
  }

  /** Double submission gives exactly two results, tagged "double_submit_1" and
      then "double_submit_2"; the race gives exactly ten, tagged "race_run_0" to
      "race_run_9" in order; any other name gives none. */
  lemma ScenarioShape(scenario: string, request: CapturedRequest, observations: seq<Observation>)
    requires |observations| == FanOut(scenario) && AllWellTimed(observations)
    ensures var rs := ScenarioResults(scenario, request, observations);
      && (scenario == DoubleSubmitName ==>
            |rs| == 2 && rs[0].scenarioName == "double_submit_1" && rs[1].scenarioName == "double_submit_2")
      && (scenario == RaceConditionName ==>
            |rs| == 10 && forall i :: 0 <= i < 10 ==> rs[i].scenarioName == RaceTag(i))
      && (scenario != DoubleSubmitName && scenario != RaceConditionName ==> rs == [])
  {
  }

  /** Every result of a scenario comes from the one request, and no two results
      of a scenario carry the same tag. */
  lemma ScenarioResultsTraceable(scenario: string, request: CapturedRequest, observations: seq<Observation>)
    requires |observations| == FanOut(scenario) && AllWellTimed(observations)
    ensures var rs := ScenarioResults(scenario, request, observations);
      && (forall i :: 0 <= i < |rs| ==> rs[i].requestId == request.requestId)
      && (forall i, j :: 0 <= i < j < |rs| ==> rs[i].scenarioName != rs[j].scenarioName)
  {
    var rs := ScenarioResults(scenario, request, observations);
    forall i, j | 0 <= i < j < |rs| ensures rs[i].scenarioName != rs[j].scenarioName {
      if scenario == RaceConditionName {
        RaceTagsDistinct(i, j);
      }
    }
  }

  class ChaosEngine {
    const replayer: Replayer

    constructor (replayer: Replayer)
      ensures this.replayer == replayer
    {
      this.replayer := replayer;
    }

    /** Runs the named scenario against `request`. */
    method ExecuteScenario(scenario: string, request: CapturedRequest, observations: seq<Observation>)
      returns (results: seq<ExecutionResult>)
      requires replayer.clientOpen
      requires |observations| == FanOut(scenario) && AllWellTimed(observations)
      ensures results == ScenarioResults(scenario, request, observations)
      ensures forall i :: 0 <= i < |results| ==> results[i].requestId == request.requestId
    {
      if scenario == DoubleSubmitName {
        results := DoubleSubmit(request, observations);
      } else if scenario == RaceConditionName {
        results := RaceCondition(request, DefaultConcurrency, observations);
      } else {
        results := [];
      }
    }

    /** Fires the same request twice. */
    method DoubleSubmit(request: CapturedRequest, observations: seq<Observation>)
      returns (results: seq<ExecutionResult>)
      requires replayer.clientOpen
      requires |observations| == 2 && AllWellTimed(observations)
      ensures |results| == 2
      ensures forall i :: 0 <= i < 2 ==> results[i] == ResultOf(request, DoubleTag(i), observations[i])
    {
      var first := replayer.Execute(request, "double_submit_1", observations[0]);
      var second := replayer.Execute(request, "double_submit_2", observations[1]);
      results := [first, second];
    }

    /** Fires the same request `concurrency` times; a non-positive count fires
        nothing. */
    method RaceCondition(request: CapturedRequest, concurrency: int, observations: seq<Observation>)
      returns (results: seq<ExecutionResult>)
      requires replayer.clientOpen
      requires |observations| == (if concurrency > 0 then concurrency else 0) && AllWellTimed(observations)
      ensures |results| == |observations|
      ensures forall i :: 0 <= i < |results| ==> results[i] == ResultOf(request, RaceTag(i), observations[i])
    {
      results := [];
      var i := 0;
      while i < concurrency
        invariant 0 <= i <= |observations|
        invariant concurrency > 0 ==> i <= concurrency
        invariant |results| == i
        invariant forall j :: 0 <= j < i ==> results[j] == ResultOf(request, RaceTag(j), observations[j])
      {
        var r := replayer.Execute(request, RaceTag(i), observations[i]);
        results := results + [r];
        i := i + 1;
      }
    }
  }
}
