# Fortex testing engine — a Dafny model

Fortex replays captured HTTP requests against a target service and looks for
resilience failures. This project models its engine:

- **Models** (`models.dfy`) holds the record types.
  - A captured request is its metadata plus an identifier.
  - An execution result has a status of SUCCESS, FAILURE or ERROR, an optional
    response and timing metadata.
  - The record types also cover the scenario descriptor and the crash
    snapshot, each with its field defaults.
- **Mutation** (`mutation.dfy`) is the mutator. From one request it builds, in
  order:
  - the empty-body variant;
  - the 10240-character oversized variant;
  - for every key of a structured body, a field-drop variant and a type-flip
    variant.
- **Replay** (`replay.dfy`) is the replayer. It sends one request and turns the
  answer into a result. A batch keeps input order.
- **Chaos** (`chaos.dfy`) is the scenario orchestrator.
  - The double-submit scenario fires a request twice.
  - The race scenario fires it ten times, tagged `race_run_<i>`.
- **Analysis** (`analysis.dfy`) is the analyzer. Three threshold heuristics run
  on every result, and each match becomes one crash snapshot:
  - a server error (code 500 or more);
  - a transport failure;
  - latency above 5000 ms.
- **Pipeline** (`pipeline.dfy`) states how these fit together in the session run with scenario `all`
  run by the command line.
- **Decimal** (`decimal.dfy`) writes an integer as decimal text, the way the
  system's string formatting does, and parses it back.

Clocks, random identifiers and the network are parameters, not effects:

- Each replay receives an `Observation`: the transport's answer, which is a
  response or a transport failure, and the clock readings before and after
  the call.
- The mutator receives one four-character identifier suffix per mutant.
- The analyzer receives a `Stamp` per snapshot: a fresh identifier and two
  clock readings.

Two details of the code that the model keeps:

- A transport failure stores the exception's text
  (`Desktop/FORTEX/core/replay.py:73`), which may be empty. `Replay.ResultOf`
  therefore promises only that the message is the failure's own.
- The session run with scenario `all` runs the race scenario before the double submission
  (`Desktop/FORTEX/main.py:63-71`).

## Model

| member | source | states |
|---|---|---|
| Models.CapturedRequest.Metadata | Desktop/FORTEX/core/models.py:5-15 | The metadata part of a captured request carries its url, method, headers, body and timestamp unchanged. |
| Models.WithId | Desktop/FORTEX/core/models.py:13-15 | A captured request built from metadata and an identifier has exactly that identifier and that metadata. |
| Models.CapturedRequestSplits | Desktop/FORTEX/core/models.py:13-15 | Every captured request is exactly its metadata extended with its identifier. |
| Models.NewCapturedRequest | Desktop/FORTEX/core/models.py:5-15 | A request given only identifier, url and method has no headers, no body, and the current time as timestamp. |
| Models.NewExecutionMetadata | Desktop/FORTEX/core/models.py:17-21 | Default execution metadata starts now, has no end time and a zero duration. |
| Models.NewResponseData | Desktop/FORTEX/core/models.py:23-28 | Response data given only a code has no headers, no body and no error. |
| Models.NewExecutionResult | Desktop/FORTEX/core/models.py:30-36 | A result given only id, scenario and status has no response and default metadata. |
| Models.NewChaosScenario | Desktop/FORTEX/core/models.py:38-43 | A scenario descriptor given name, description and mutation type has no parameters. |
| Models.NewCrashSnapshot | Desktop/FORTEX/core/models.py:45-52 | A snapshot keeps its id, scenario, requests and results, is stamped with the current time, and has no analysis text. |
| Decimal.IntToString | Desktop/FORTEX/core/mutation.py:33 | The text of an integer is its canonical decimal text: a leading minus sign exactly for a negative number, and no leading zero except in "0" itself. |
| Decimal.IntToStringRoundTrip | Desktop/FORTEX/core/mutation.py:33 | Parsing the decimal text of any integer gives the integer back. |
| Decimal.IntToStringInjective | Desktop/FORTEX/core/chaos.py:29-30 | Distinct integers have distinct decimal texts. |
| Mutation.Junk | Desktop/FORTEX/core/mutation.py:19 | The oversized filler has length 10240 and every character is 'A'. |
| Mutation.Flip | Desktop/FORTEX/core/mutation.py:32-35 | The type flip turns an integer into its canonical decimal text, which parses back to it, a boolean into "True"/"False", a string into 12345, and leaves every other value unchanged. |
| Mutation.RemoveKey | Desktop/FORTEX/core/mutation.py:26-27 | Deleting a key from a dictionary leaves exactly the other keys. |
| Mutation.RemoveKeyAt | Desktop/FORTEX/core/mutation.py:25-27 | Deleting the key at position i removes exactly that entry and keeps the other entries in their order. |
| Mutation.SetKey | Desktop/FORTEX/core/mutation.py:32-35 | Assigning to a key keeps the dictionary's keys and their order. |
| Mutation.SetKeyAt | Desktop/FORTEX/core/mutation.py:31-35 | Assigning to the key at position i changes only that entry's value. |
| Mutation.CreateMutant | Desktop/FORTEX/core/mutation.py:41-46 | A mutant equals the original except for its new body and its identifier "<original id>_<tag>_<suffix>", which is strictly longer than the original's. |
| Mutation.MutantAt | Desktop/FORTEX/core/mutation.py:12-46 | Mutant i of a request, in the order the mutator appends them. It has no contract of its own; `Mutation.MutantAtShape` states what each mutant is. |
| Mutation.Mutants | Desktop/FORTEX/core/mutation.py:12-46 | The whole mutant list of one call. It has no contract of its own; `Mutation.AllMutantIdsDistinct` states its length, its elements and its distinct ids, and `Mutation.Mutate` returns exactly it. |
| Mutation.MutantAtShape | Desktop/FORTEX/core/mutation.py:12-38 | Mutant i keeps url, method, headers and timestamp, is tagged by its position, and has as body: none; 10240 'A's; the dictionary without its k-th key (same order, that key gone); or the dictionary with its k-th value flipped. |
| Mutation.MutantTagsDistinct | Desktop/FORTEX/core/mutation.py:16-36 | The tags of the mutants of one call are pairwise distinct. |
| Mutation.IdDeterminesTag | Desktop/FORTEX/core/mutation.py:43 | An identifier built from one original, a tag and a four-character suffix determines the tag. |
| Mutation.MutantIdsDistinct | Desktop/FORTEX/core/mutation.py:41-46 | Two different mutants of one call never share an identifier, and no mutant has the original's identifier. |
| Mutation.AllMutantIdsDistinct | Desktop/FORTEX/core/mutation.py:8-46 | The mutant list of one call lists mutant i at position i, and all identifiers in it are pairwise distinct and differ from the original's. |
| Mutation.DropMutantAt | Desktop/FORTEX/core/mutation.py:25-28 | The field-drop the loop builds for the k-th key is mutant 2 + 2k. |
| Mutation.FlipMutantAt | Desktop/FORTEX/core/mutation.py:31-36 | The type flip the loop builds for the k-th key is mutant 3 + 2k. |
| Mutation.TypeFlipCopy | Desktop/FORTEX/core/mutation.py:31-35 | The flipped copy equals the dictionary with only its k-th value replaced by its type flip. |
| Mutation.BodyMutants | Desktop/FORTEX/core/mutation.py:15-20 | The first two mutants are the empty-body and the oversized-body variant. |
| Mutation.KeyMutants | Desktop/FORTEX/core/mutation.py:25-36 | The two variants built for the k-th key are mutants 2 + 2k and 3 + 2k. |
| Mutation.Mutate | Desktop/FORTEX/core/mutation.py:8-38 | Mutate returns 2 mutants, or 2 + 2n for a structured body with n keys. Mutant i is at position i. All identifiers are pairwise distinct and none is the original's. |
| Replay.PrepareRequest | Desktop/FORTEX/core/replay.py:23-39 | The outbound call keeps method, url and headers. A non-empty text body is sent as content and a non-empty structured body as JSON. Any other body is not sent. |
| Replay.Classify | Desktop/FORTEX/core/replay.py:49 | A status code is SUCCESS exactly when below 500, and FAILURE otherwise; never ERROR. |
| Replay.ResultOf | Desktop/FORTEX/core/replay.py:15-80 | The result carries the request's id and scenario name, the clock readings and their difference as duration. ERROR happens exactly on transport failure, with code 0 and the failure's message. FAILURE happens exactly on a response of 500 or more. A response keeps its code, headers and text. |
| Replay.Replayer.constructor | Desktop/FORTEX/core/replay.py:8-10 | A new replayer keeps its timeout and has an open client. |
| Replay.Replayer.Close | Desktop/FORTEX/core/replay.py:12-13 | Closing releases the client and keeps the timeout. |
| Replay.Replayer.Execute | Desktop/FORTEX/core/replay.py:15-80 | Replaying one request gives exactly the result the transport's answer determines. |
| Replay.Replayer.ExecuteBatch | Desktop/FORTEX/core/replay.py:82-93 | A batch gives one result per request, in input order, each under the baseline name and with its request's id. |
| Chaos.RaceTagsDistinct | Desktop/FORTEX/core/chaos.py:29-30 | Different race runs carry different tags. |
| Chaos.ScenarioResults | Desktop/FORTEX/core/chaos.py:10-31 | The results a named scenario gathers, in launch order. It has no contract of its own; `Chaos.ScenarioShape` and `Chaos.ScenarioResultsTraceable` state its length, tags and ids. |
| Chaos.ScenarioShape | Desktop/FORTEX/core/chaos.py:10-31 | Double submission yields two results tagged double_submit_1 then double_submit_2. The race yields ten, tagged race_run_0 to race_run_9 in order. Any other name yields none. |
| Chaos.ScenarioResultsTraceable | Desktop/FORTEX/core/chaos.py:10-31 | Every result of a scenario carries the replayed request's id, and no two carry the same tag. |
| Chaos.ChaosEngine.constructor | Desktop/FORTEX/core/chaos.py:7-8 | The engine keeps the replayer it is given. |
| Chaos.ChaosEngine.ExecuteScenario | Desktop/FORTEX/core/chaos.py:10-16 | Running a scenario gives exactly that scenario's results, all with the request's id. |
| Chaos.ChaosEngine.DoubleSubmit | Desktop/FORTEX/core/chaos.py:18-24 | Double submission gives two results, the i-th replayed under the i-th double-submit tag. |
| Chaos.ChaosEngine.RaceCondition | Desktop/FORTEX/core/chaos.py:26-31 | The race gives one result per run, none for a non-positive count. The i-th result is replayed under race_run_i. |
| Analysis.TriggeredTags | Desktop/FORTEX/core/analysis.py:16-27 | Each heuristic fires on its own condition: the server-error tag iff a response of 500 or more is recorded, the transport tag iff the status is ERROR, the latency tag iff the duration exceeds 5000 ms. No other tag fires, each fires at most once, and they come in that order. |
| Analysis.TagsOf | Desktop/FORTEX/core/analysis.py:16-27 | One result triggers at most three tags, each one of the three heuristic tags; `Analysis.TriggeredTags` states when each fires. |
| Analysis.Findings | Desktop/FORTEX/core/analysis.py:16-27 | The (result, tag) pairs of a list of results, result by result. It has no contract of its own; `Analysis.FindingsAppend`, `Analysis.FindingsCount` and `Analysis.FindingsMembership` state its order, size and members. |
| Analysis.FindingsAppend | Desktop/FORTEX/core/analysis.py:16-27 | The findings of a concatenation are the findings of each part, in order. |
| Analysis.FindingsCount | Desktop/FORTEX/core/analysis.py:10-33 | There are exactly as many findings as triggered heuristics, and none for no results. |
| Analysis.FindingsMembership | Desktop/FORTEX/core/analysis.py:16-27 | A (result, tag) pair is a finding exactly when the result is in the list and triggers that tag. |
| Analysis.AllServerErrors | Desktop/FORTEX/core/analysis.py:18-19 | When every result is a fast server error without transport failure, each result gives exactly one server-error finding, in order. |
| Analysis.CodeText | Desktop/FORTEX/core/analysis.py:54 | The code text reads back as the recorded status code, or is "N/A" when no response is recorded. `Analysis.CodeTextCanonical` states that it is exactly the code's canonical decimal text. |
| Analysis.CodeTextCanonical | Desktop/FORTEX/core/analysis.py:54 | When a response is recorded, the code text is exactly the canonical decimal text of its status code. |
| Analysis.AnalysisText | Desktop/FORTEX/core/analysis.py:54 | The analysis text of a snapshot. It has no contract of its own; `Analysis.AnalysisTextNamesCode` states that it is exactly "Detected failure type: <tag>. Code: " followed by the status code's canonical decimal text, or by "N/A" when no response is recorded. |
| Analysis.CreateSnapshot | Desktop/FORTEX/core/analysis.py:36-55 | The snapshot recorded for one result and one tag. It has no contract of its own; `Analysis.SnapshotContent` states its fields. |
| Analysis.SnapshotContent | Desktop/FORTEX/core/analysis.py:36-55 | A snapshot holds the scenario name, "Auto-generated fail" and the tag as mutation type, with no parameters. It holds exactly the result, and one placeholder request with the result's id, "UNKNOWN" url and method, and no headers or body. Its analysis text is set. |
| Analysis.AnalysisTextNamesCode | Desktop/FORTEX/core/analysis.py:54 | The analysis text starts with "Detected failure type: <tag>. Code: ". The rest is the status code's canonical decimal text, or "N/A" when no response is recorded. |
| Analysis.FindingsStep | Desktop/FORTEX/core/analysis.py:16-27 | Scanning one more result adds exactly that result's findings. |
| Analysis.ExtendsAppend | Desktop/FORTEX/core/analysis.py:18-27 | Appending one more snapshot of the result extends the recorded snapshots by that tag. |
| Analysis.ExtendsByFindings | Desktop/FORTEX/core/analysis.py:16-27 | Snapshots of the first k results, followed by result k's, are the snapshots of the first k + 1 results. |
| Analysis.RecordFindings | Desktop/FORTEX/core/analysis.py:17-27 | Checking one result appends exactly one snapshot per tag it triggers, in the heuristics' order, and keeps the earlier snapshots. |
| Analysis.AnalyzeResults | Desktop/FORTEX/core/analysis.py:10-33 | The analyzer returns one snapshot per triggered heuristic, result by result, and snapshot j is the snapshot of finding j. |
| Pipeline.ReplayedTags | Desktop/FORTEX/core/analysis.py:16-27 | For a replayed result: the server-error tag fires exactly for a response of 500 or more; the transport tag fires exactly for a transport failure (code 0 never counts as a server error); the latency tag fires exactly when the clock readings are more than 5000 ms apart. A server error is exactly a FAILURE. |
| Pipeline.TransportFailureFinding | Desktop/FORTEX/core/analysis.py:22-23 | A fast transport failure yields exactly one finding, tagged as a client error or timeout. |
| Pipeline.SessionResults | Desktop/FORTEX/main.py:52-82 | The results of the session run with scenario `all`, in the order it gathers them. It has no contract of its own; `Pipeline.AlwaysFailingTarget` states its length and findings. |
| Pipeline.AlwaysFailingTarget | Desktop/FORTEX/main.py:52-82 | Against a target that always answers quickly with a server error, the session run with scenario `all` gathers 13 results plus one per mutant, and the analyzer records exactly one server-error snapshot for each result, in order. |

## Left out

- Network I/O: the HTTP client, redirects and the timeout's effect are not modelled. Each call's answer and clock readings are supplied as an `Observation`.
- Concurrency: semaphore admission, the interleaving of tasks that are gathered together, and the bound on requests in flight are not modelled. Batch and scenario runs are replayed one after another; result order and length are kept.
- Clocks and random identifiers: `datetime.now()`, the 4-character hex suffix of `uuid4` and snapshot uuids are parameters. The model does not require them to be hexadecimal or unique across calls.
- Durations are exact real differences of the supplied readings in milliseconds. Floating-point rounding is not modelled.
- Body kinds other than absent, text and dictionary (a list, a number, bytes) are not modelled. Nested dictionary values are opaque to the type flip, as in the system's mutator.
- Replay.Replayer.Execute: requires an open client. A replay after `close` would raise inside the client and be recorded as an ERROR result; that path is not modelled.
- Replay.ResultOf: does not promise a non-empty error message, because the exception's text may be empty.
- Replay.Replayer.ExecuteBatch: a semaphore of size 0 with pending requests would wait forever, and a negative size raises. Both are excluded by the precondition instead of being modelled.
- The report writers `save_report` and `print_summary`, the discovery component, the command-line layer outside the session in `run_scenario`, and the test server are not part of this model.
- The JSON encoding of a structured body on the wire is not modelled; the outbound call carries the dictionary itself.
- Replay.ResultOf: requires end >= start. The wall clock the system reads can step back and give a negative duration_ms, which is not modelled.
- Mutation.RemoveKey and Mutation.SetKey: on an absent key they return the dictionary unchanged, a total extension the mutator never reaches. The system would raise on a delete, or append the key on an assignment.
- Headers are modelled as maps, which lose the insertion order of the system's dictionaries. Nothing in the modelled code depends on that order.
