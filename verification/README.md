# AgentSkeptic: a verified model of its deterministic core

AgentSkeptic compares what an agent's tools reported (recorded events) with what the database holds, and issues a
verdict. Nearly all of that path is deterministic code over unbounded event lists, rows, strings and files. This project
models that code in Dafny and proves what the code promises, for all inputs.

| file | models |
|---|---|
| `Sorting.dfy`, `Utf16.dfy`, `Decimal.dfy` | shared vocabulary: stable sorting, strings of UTF-16 code units, number text |
| `Json.dfy`, `CanonicalParams.dfy` | JSON values as `JSON.parse` yields them, and the canonical printer |
| `LogicalSteps.dfy` | stable sort, grouping by `seq`, divergence, capture-order analysis |
| `Verdicts.dfy` | plans to step outcomes, workflow status, certificate, checkpoint verdicts, LangGraph gate |
| `FailureReporting.dfy`, `FailureAttribution.dfy` | failure analysis, failure explanation, correctness definition; what an analysis blames |
| `SqlText.dfy`, `SqlQuery.dfy` | SQL text by dialect, a lexer of such text, conditions and placeholders |
| `SqlReader.dfy` | a reader of statements by SQL's grammar, and what a database answers to a text with values |
| `RelationalCheck.dfy`, `RelationalSql.dfy` | relational checks: query, three-valued meaning, verdict; the text of the query |
| `RowSql.dfy`, `RowReconciler.dfy` | row checks: text, reconciliation of fetched rows, rollup of several effects |
| `Utf8.dfy`, `RunBundle.dfy` | UTF-8 and line endings; the bundle writer, which may fail anywhere, and the reader's checks |
| `RunComparison.dfy`, `Recurrence.dfy` | comparison of two runs; what recurs over many |
| `GitNameStatus.dfy` | the parser of `git diff -z --name-status` |
| `PathHarvest.dfy` | fences, obligation lines, path qualification, pattern preflight |
| `ExecutionTrace.dfy` | the validator of parent ids and the ancestor walk |
| `JsonPointer.dfy`, `ResolveExpectation.dfy` | JSON Pointers, and expectation resolution to normal form |

`dafny verify dfyconfig.toml` checks everything. Code that the source writes as loops over local state, and objects that
it updates in place, are methods and classes here, each proved against a function or predicate; the results are lemmas
about those.

What comes from outside is a parameter: `localeCompare` (any relation; a total preorder where sorting must be
meaningful), SHA-256 (injective), the manifest's JSON text and schema (printing and parsing undo each other), the
comparisons and collations of the database, the URL parser, `trim` and `toLowerCase`, the registry, and the regular
expressions that classify prose. Strings are sequences of UTF-16 code units, bytes are integers below 256, and JSON numbers are kept
as their significant digits and decimal point, so number text is exact. Sorting is `Array.prototype.sort`: stable, by
any comparison.

## Where the code does not keep the promise

Each of these is a lemma with an input that shows it, beside a lemma that says exactly when the code does keep it.

- The canonical printer is injective only on what JSON text can carry: `JSON.parse("1e999")` is an infinity, which prints
  as `null` (`CanonicalParams.InfinityCollides`; exact statement `CanonicalParams.PrintInjective`).
- Failure reporting is not total. Policy validation admits consistency mode `bounded` (`src/verificationPolicy.ts:94-125`),
  the explanation rejects it with an invariant error (`src/failureExplanation.ts:179-184`), so an unfinished run under a
  bounded policy throws instead of being explained (`FailureReporting.BoundedPolicyThrows`). It throws iff the run is
  unfinished and the policy is bounded (`FailureReporting.ExplanationTotal`).
- A count or sum that the driver hands over as text is never accepted: `normalizeNumericActual`
  (`src/relationalInvariant.ts:145-163`) and `normalizeCountV` (`src/reconciler.ts:73-83`) reject every string, and the
  PostgreSQL and MySQL clients (`src/sqlReadBackend.ts:39-40`, `src/verificationConnections.ts:50-95`) are opened without a
  type parser, under which 64-bit counts and decimal sums arrive as text. Such a check is incomplete whatever the tables
  hold (`RelationalCheck.TextNeverVerified`, `RowReconciler.TextCountNeverVerified`). The verdict follows the tables iff
  the scalar is a boolean, a finite number or a bigint in the safe range (`RelationalCheck.VerifiedMeansHolds`,
  `RowReconciler.AbsentVerdict`).
- The anti-join query counts, besides orphans, pairs whose partner has NULL in the presence column: two rows with equal
  keys are enough for a check that holds to come out inconsistent (`RelationalCheck.HiddenExample`). The query counts the
  orphans iff nothing hides (`RelationalCheck.AntiJoinVerdict`), and with a presence column that is never NULL nothing does
  (`RelationalCheck.NothingHides`).
- Onto a directory that did not pass the reader, a bundle write can show a mix that passes
  (`RunBundle.MixExample`); this happens iff the old manifest describes the new events next to the old result
  (`RunBundle.MixIff`).
- A checkpoint key is three names joined by U+001F (`src/pipeline.ts:69-73`), which a name may contain: two checkpoints
  can share a key and so a verdict (`Verdicts.KeyCollides`). The key stands for one checkpoint alone iff none of its names
  holds that character (`Verdicts.KeyIdentifies`).
- JSON Pointers also find what every object inherits, such as `/constructor` (`JsonPointer.InheritedExample`; exact
  condition `JsonPointer.EvalMatches`).
- A required field named `__proto__` is dropped silently (`ResolveExpectation.ProtoDropped`); every field is required iff
  none has that name (`ResolveExpectation.EveryFieldRequired`).
- By node positions the ancestor walk can go up, when a version 3 id looks like the synthetic id of a later event
  (`ExecutionTrace.NodesCanRise`); by the validator's positions it always falls (`ExecutionTrace.WalkWellFounded`).

## Model

| member | source | states |
|---|---|---|
| CanonicalParams.PrintInjective | src/canonicalParams.ts:2-15 | two parsed JSON values print alike iff they are equal up to object key order, -0 taken as 0 and infinities as null |
| CanonicalParams.PrintDecides | src/canonicalParams.ts:2-15 | on values without infinities, printing alike is exactly equality up to key order |
| CanonicalParams.PrintDelimited | src/canonicalParams.ts:5-14 | a printed value can be told apart from any other in front of any text that starts with a delimiter, the core of unambiguous printing |
| CanonicalParams.InfinityCollides | src/canonicalParams.ts:3-4 | the lists of an infinity and of null print alike though they differ |
| Json.QuoteRead | src/canonicalParams.ts:4-14 | a quoted string, with the escapes of section 7 of RFC 8259 and lone surrogates escaped, determines the string and the text after it |
| Decimal.ReadBack | src/canonicalParams.ts:3-4 | digits and point position of every finite number can be read back from its text, in all four layouts |
| Sorting.SortStable | src/planLogicalSteps.ts:9-15 | sorting keeps, for every class of elements the order does not tell apart, their subsequence as it was |
| Sorting.SortPermutation | src/resolveExpectation.ts:122 | reordering the input of a sort whose keys are distinct does not change the output |
| LogicalSteps.PlanLogicalSteps | src/planLogicalSteps.ts:28-59 | one plan for each seq in use, ascending, with exactly its observations in order, and divergent iff some observation differs from the last in tool or parameters as JSON values |
| LogicalSteps.IsDivergent | src/planLogicalSteps.ts:4-6 | the divergence loop finds a difference iff there is one as JSON values |
| LogicalSteps.PlansInvariant | src/planLogicalSteps.ts:9-59 | capture orders that agree within each seq give the same plans |
| LogicalSteps.PreparedPlans | src/prepareWorkflowEvents.ts:5-12 | the extra sort in preparation does not change the plans |
| LogicalSteps.AnalyzeEventSequenceIntegrity | src/eventSequenceIntegrity.ts:18-54 | the capture-order reason is reported iff some event comes after one with a larger seq, then the first falling pair of timestamps in sorted order |
| LogicalSteps.NoReasonNoSort | src/eventSequenceIntegrity.ts:25-37 | without a capture-order reason sorting is the identity, and the reason is there iff capture order is not monotonic |
| Verdicts.RunLogicalStepsVerification | src/pipeline.ts:292-326 | one step for each seq in use, ascending; a step has the tool, release-critical mark and checkpoint key of its last observation and the number of observations; it is divergent iff they do not all agree with the last, and then incomplete with that one code and no effects; otherwise it is incomplete for an unknown tool or a failed resolution, each with its code, or has the status, codes and effects of the executed check |
| Verdicts.StepsPass | src/pipeline.ts:292-326 | all steps are verified iff of every seq all observations agree with the last, its tool is known and its check verifies |
| Verdicts.KeyDistinguishes | src/pipeline.ts:69-73 | checkpoints whose names are free of the separator have equal keys iff they are the same |
| Verdicts.KeyIdentifies | src/pipeline.ts:69-73 | no other checkpoint has the key of a checkpoint iff none of its names holds the separator |
| Verdicts.KeyCollides | src/pipeline.ts:69-73 | two different checkpoints with one key |
| Verdicts.CaptureOrderIrrelevant | src/pipeline.ts:301-325 | capture orders that agree within each seq give the same steps and the same status |
| Verdicts.PreparedSteps | src/prepareWorkflowEvents.ts:5-12 | steps computed from prepared events are steps of the captured ones |
| Verdicts.StatusDecides | src/aggregate.ts:26-39 | the aggregate keeps the steps and adds the one code for having none; complete iff no run-level reason, at least one step and all verified; inconsistent iff no reason, some step missing, inconsistent or partially verified, and none incomplete |
| Verdicts.TrustedMeansAllVerified | src/outcomeCertificate.ts:502-510 | a contract certificate is trusted iff there are no run-level reasons, at least one logical step, and every step is verified; not trusted iff there are none, no step is incomplete, and some step is bad |
| Verdicts.TrustedMeansEverySeqPasses | src/outcomeCertificate.ts:502-510 | from the events: a contract certificate is trusted iff there is no run-level reason, some event, and of every seq the observations agree and the last one passes its check |
| Verdicts.CriticalVerdictMeans | src/outcomeCertificate.ts:115-130 | the release-critical verdict is not trusted iff some critical step is missing or inconsistent, and trusted iff every critical step is verified |
| Verdicts.TrustedCoversCritical | src/outcomeCertificate.ts:115-130 | a trusted run is trusted for its release-critical tools too |
| Verdicts.ComputeCheckpointVerdicts | src/outcomeCertificate.ts:221-250 | verdicts partition the keyed steps: one for each checkpoint key in use, with exactly its seqs ascending and its rolled-up verdict, by smallest seq and, where that ties, by key in locale order |
| Verdicts.VerdictsVerified | src/outcomeCertificate.ts:195-207 | all checkpoint verdicts are verified iff every step that carries a key is verified |
| Verdicts.GateMeansComplete | src/langGraphCheckpointTrustGate.ts:32-61 | for eligible input the whole production condition holds iff the status is complete |
| Verdicts.CheckpointTrustGate.AppendRunEvent | src/langGraphCheckpointTrustGate.ts:124-138 | malformed input adds a reason, events of other workflows change nothing, others are buffered in order |
| Verdicts.CheckpointTrustGate.RunCheckpointTrust | src/langGraphCheckpointTrustGate.ts:148-183 | throws iff nothing was received; otherwise its certificate opens the gate iff the input is eligible and of every seq the observations agree and the last one passes; the buffers stay as they were |
| FailureReporting.EarliestFailureIndex | src/failureAnalysis.ts:54-70 | the index found is the least ingest index of a failing seq, and none iff no failing seq was ingested |
| FailureReporting.DriverIsWorst | src/failureAnalysis.ts:108-118 | the driver step comes before every other failing step by status, seq and tool id |
| FailureReporting.UpstreamSound | src/failureAnalysis.ts:217-318 | upstream analysis is given iff some run-context signal precedes the earliest failing observation, and its evidence lies before it |
| FailureReporting.AnalysisTotal | src/failureAnalysis.ts:183-393 | every result of the aggregate that is not complete has an analysis whose first evidence has codes, has the scope that the documented order of phases assigns, and never effect scope |
| FailureAttribution.EarliestMeans | src/failureAnalysis.ts:54-70 | the analysis works with the least ingest index at which a step that is not verified was observed, and with none iff there is none |
| FailureAttribution.AnalysisAttributes | src/failureAnalysis.ts:183-393 | what the analysis blames, with origins, confidence and evidence: the run-level codes if there are any, else the signals before the earliest failing observation, else an irregular event sequence, else the driver step |
| FailureReporting.ExplanationTotal | src/failureExplanation.ts:323-462 | the explanation throws iff the run is not complete and its policy is bounded; no other invariant error can occur, the code it explains is the least of the primary evidence's codes, for run-level reasons the least mapped one if any is mapped, and the detail it looks up is always found |
| FailureReporting.CorrectnessTotal | src/correctnessDefinition.ts:80-293 | unless the policy is bounded, the definition of a run that is not complete is always built, and it enforces what the phase at fault calls for |
| FailureReporting.BoundedPolicyThrows | src/failureExplanation.ts:170-184 | one missing row under a valid bounded policy makes failure reporting throw |
| SqlText.QuotedReadBack | src/sqlDialect.ts:5-17 | reading back a quoted identifier returns the original, whatever quotes it contains |
| SqlText.LexRendered | src/sqlDialect.ts:26-37 | SQL text whose names and placeholders are separated by words reads back as its tokens, placeholders numbered in reading order |
| SqlQuery.PushEqualities | src/relationalInvariant.ts:39-42 | the loop adds one condition, one value and one placeholder number for each equality, in step |
| RelationalCheck.CompiledMeaning | src/relationalInvariant.ts:30-115 | for all tables with NULLs, all comparisons and bindings: the compiled query answers what the check asks, and fails iff a table or column is missing |
| RelationalCheck.AntiJoinCounts | src/relationalInvariant.ts:47-65 | the left join with its filters counts the anchor rows without a partner, plus the pairs whose partner has NULL in the presence column |
| RelationalCheck.JoinCounts | src/relationalInvariant.ts:93-111 | the inner join counts exactly the pairs that match on the key and on every equality |
| RelationalCheck.CompiledRuns | src/relationalInvariant.ts:30-115 | the query names exactly the tables and columns of its check |
| RelationalCheck.VerdictForEveryScalar | src/relationalInvariant.ts:145-302 | for every scalar the driver may give: incomplete iff the query failed, the scalar is unreadable, or an existence check reads neither 0 nor 1 |
| RelationalCheck.VerifiedMeansHolds | src/relationalInvariant.ts:145-302 | for an answer handed over in any number type or as text: verified iff the scalar is readable, the check holds of the tables and nothing hides; incomplete iff the query failed or the scalar is unreadable; otherwise missing for related rows and inconsistent for all else |
| RelationalCheck.VerdictCodes | src/relationalInvariant.ts:165-302 | which code a check reports: none iff verified, and each of the five exactly in its case |
| RelationalCheck.TextNeverVerified | src/relationalInvariant.ts:145-163 | from a scalar that is text no check is verified, whatever the tables hold |
| RelationalCheck.AntiJoinVerdict | src/relationalInvariant.ts:44-65 | an anti-join holds iff it has no orphans, and the query counts exactly the orphans iff nothing hides |
| RelationalCheck.HiddenExample | src/relationalInvariant.ts:44-65 | an anti-join that holds of two tables of one row each, with one hidden pair, and is reported inconsistent |
| RelationalCheck.NothingHides | src/relationalInvariant.ts:58 | with a presence column that is never NULL in a lookup row nothing hides |
| RelationalSql.BuildRelationalScalarSql | src/relationalInvariant.ts:30-115 | read by SQL's grammar and executed with the values built beside it, the text answers on every database what the check asks |
| RelationalSql.BuildAntiJoinSampleSql | src/relationalInvariant.ts:118-143 | the text reads as: the identifying columns of the anchor, each once and ascending, under the left join and the conditions of the check, at most three rows; its values are those of the count query |
| RelationalSql.CompiledRead | src/relationalInvariant.ts:30-115 | by the grammar the compiled statement poses exactly the compiled query: which rows are counted or summed, LEFT or INNER JOIN, tables, aliases, conditions and NULL test; only an existence check without equalities is no statement |
| RelationalSql.TextAnswers | src/relationalInvariant.ts:30-115 | in every dialect, from text to answer: lexing, reading and executing gives what the check asks |
| RelationalSql.SampleRead | src/relationalInvariant.ts:118-143 | in every dialect the sample text reads as the listing of a failing anti-join |
| RelationalSql.QueryTextReadsBack | src/relationalInvariant.ts:30-115 | a driver that reads the text finds exactly the query's tokens: names unescaped, placeholders 1 to n in reading order, n being the number of values |
| RelationalSql.ConditionsBind | src/relationalInvariant.ts:34-110 | the i-th parametrised condition in reading order is the i-th equality of the check, has number i, and binds values[i - 1] |
| RelationalSql.SampleTextReadsBack | src/relationalInvariant.ts:118-143 | so does the sample text, whose conditions and values are those of the count query |
| RowSql.BuildRowAbsentSqlPlan | src/reconciler.ts:45-71 | by the grammar both texts are one table under one list of conditions, counted in the first and listed in the second with at most three rows and each column once, ascending; they share one list of values |
| RowSql.BuildSelectByIdentity | src/sqlConnector.ts:17-29 | by the grammar the text asks for all columns of the rows with this identity, at most two, and is no statement without an identity |
| RowSql.RowTextReadsBack | src/reconciler.ts:45-71 | in every dialect both texts read back as meant; placeholder i binds the value of the i-th equality, identity first |
| RowSql.SelectTextReadsBack | src/sqlConnector.ts:17-29 | the select text reads back with placeholders 1 to n |
| RowSql.CountRead | src/reconciler.ts:45-65 | in every dialect the count text reads as a count over the request's table and conditions |
| RowSql.SampleRead | src/reconciler.ts:45-71 | in every dialect the sample text reads as the listing of those rows, at most three |
| RowSql.SelectRead | src/sqlConnector.ts:17-29 | the select text reads as the select by identity with LIMIT 2 |
| RowSql.AbsentKeeps | src/reconciler.ts:45-71 | with the values built for them, the conditions keep exactly the rows that satisfy every equality of identity and filter |
| RowSql.SegmentsPlain | src/sqlDialect.ts:20-24 | the segments of a table id are non-empty and contain no dot |
| RowSql.SegmentsOfJoin | src/sqlDialect.ts:20-24 | the segments of parts joined by dots are those of the parts that are not empty, in order |
| RowSql.JoinOfParts | src/sqlDialect.ts:20-24 | every table id is such a join, so its segments are determined |
| RowReconciler.ReconcileFromRows | src/reconciler.ts:86-157 | the loop with early returns computes the rule table over the sorted fields |
| RowReconciler.SelectServes | src/sqlConnector.ts:17-42 | what a database may serve to the select text is exactly any two, or all, of the rows that match the identity |
| RowReconciler.CountAnswers | src/reconciler.ts:45-71 | what a database answers to the count text is the number of rows that satisfy identity and filter, or an error iff the table or a column is missing |
| RowReconciler.OutcomeMeans | src/reconciler.ts:86-176 | a failed query, no match and more than one match each have their one status, code and evidence, whichever rows are fetched; one match is judged by the scan of its cells |
| RowReconciler.EqualsMeans | src/valueVerification.ts:44-128 | the comparison, which goes by the kind of the expected scalar, accepts what each kind of column value is equal to: booleans also 1 and 0, bigints only in the safe range, texts trimmed, dates by their ISO text, nothing that is not finite |
| RowReconciler.ScanReports | src/reconciler.ts:109-150 | a row that fails is reported for the first field, in the sorted order, that it does not carry |
| RowReconciler.FaultReported | src/reconciler.ts:111-149 | shape mismatch iff the column is neither in the row nor inherited, unreadable iff it holds an object, value mismatch otherwise, each with its status |
| RowReconciler.VerifiedMeansClaim | src/reconciler.ts:159-176 | whichever two rows the database returns, a request is verified iff exactly one table row matches the identity and carries every required column with an equal scalar; missing iff none matches |
| RowReconciler.TwoRowsSuffice | src/sqlConnector.ts:17-42 | fetching all matching rows would give the same status and reasons |
| RowReconciler.FetchIrrelevant | src/sqlConnector.ts:31-42 | which rows LIMIT 2 returns has no influence on the outcome |
| RowReconciler.RollupDecides | src/multiEffectRollup.ts:52-104 | each rollup status holds for exactly one pattern of effect statuses |
| RowReconciler.RollupNames | src/multiEffectRollup.ts:56-103 | a rollup that is not verified has one reason, which names exactly the incomplete effects, or all, or those missing or inconsistent, ascending, with the counts |
| RowReconciler.RollupVerified | src/multiEffectRollup.ts:165-180 | a rollup is verified iff every effect's claim holds of the full table |
| RowReconciler.RollupOrderIrrelevant | src/multiEffectRollup.ts:165-180 | request, status, reasons and evidence depend neither on the order of effects with distinct ids nor on the rows returned |
| RowReconciler.AbsentVerdict | src/reconciler.ts:200-248 | for every count the driver may give: incomplete iff the query failed or the count is unreadable, and from a readable count verified iff no row satisfies identity and filter, inconsistent iff one does; each has its one code |
| RowReconciler.TextCountNeverVerified | src/reconciler.ts:73-83 | from a count that is text no absence is verified |
| Utf8.DecodeEncode | src/agentRunRecord.ts:61-63 | decoding undoes encoding for every text of Unicode scalar values |
| Utf8.LfEqualMeans | src/agentRunRecord.ts:61-63 | canonical forms are equal iff the decoded texts are equal after one pass of line-ending replacement |
| Utf8.DecodeRewrite | src/agentRunRecord.ts:61-63 | rewriting LF bytes as CRLF before decoding is rewriting the decoded text, from every decoder state and for ill-formed input |
| Utf8.RewriteInvisible | src/agentRunRecord.ts:61-63 | rewriting every LF of a file as CRLF leaves its canonical form alone iff the file held no CRLF |
| RunBundle.Directory.Replace | src/agentRunBundle.ts:54-63 | rename; if that fails on an existing file, unlink and rename once more; nothing else is done; the file is as before, gone or new throughout, and new iff the call succeeds |
| RunBundle.Directory.Install | src/agentRunBundle.ts:54-74 | after a failed replacement the temporary file is unlinked, and it stays only if that unlink fails |
| RunBundle.Directory.AtomicWrite | src/agentRunBundle.ts:48-74 | the temporary file is written and then installed, in these operations and no others; throughout only this file differs and it is as before, gone or new; after success no temporary file is left |
| RunBundle.Directory.Rollback | src/agentRunBundle.ts:76-87 | every written file that is present is unlinked once, last first, and nothing else is touched; what stays is exactly what was not there or whose unlink failed, and nothing stays if the operations to come are good |
| RunBundle.WriteAgentRunBundle | src/agentRunBundle.ts:94-143 | every state of the directory during the call is a reachable one; success leaves the complete bundle and no temporary file, and a run without faults succeeds; after a failure the files this call put in place all stay if the bundle is unsigned, and if it is signed each is unlinked once, last first, those stay whose unlink failed, and none if the operations to come are good |
| RunBundle.RollbackMeans | src/agentRunBundle.ts:76-87 | after a rollback of files that were there, a file is still there iff its unlink failed |
| RunBundle.GiveUp | src/agentRunBundle.ts:137-142 | the catch clause rolls a signed bundle back and leaves an unsigned one alone; the manifest is not the new one |
| RunBundle.ManifestLast | src/agentRunBundle.ts:126-142 | until all files are new the manifest is the old one or missing |
| RunBundle.LoadCorpusRun | src/debugCorpus.ts:216-480 | reading a directory gives the integrity verdict on its four files and changes nothing; it accepts iff the manifest is well formed and describes the other files |
| RunBundle.ManifestRejection | src/debugCorpus.ts:216-480 | a rejection blames the manifest iff it is missing, no JSON or against the schema, with one code for each |
| RunBundle.RejectionMeans | src/debugCorpus.ts:216-480 | under a readable manifest a rejection names the first file at fault in the order result, events, signature; its code is the missing, length or digest one exactly when the file is missing, has the wrong canonical length, or the right length and the wrong digest |
| RunBundle.AcceptsMeans | src/debugCorpus.ts:216-480 | the reader accepts iff the manifest is well formed and describes result and events up to line endings and the signature byte for byte |
| RunBundle.NeverAMix | src/agentRunBundle.ts:94-143 | onto a directory that passed, whatever fails or stops anywhere, what passes is the old bundle or the new one, never one part of each |
| RunBundle.FreshOnlyComplete | src/agentRunBundle.ts:94-143 | into a directory without a manifest only the complete new bundle passes |
| RunBundle.CompletionPasses | src/agentRunRecord.ts:78-126 | a completed write is accepted with the record it wrote |
| RunBundle.FailureNotComplete | src/agentRunBundle.ts:137-142 | what passes after a failed call still has the old manifest |
| RunBundle.MixIff | src/agentRunBundle.ts:94-143 | from any directory, a run can show a mix that passes iff the old manifest describes the new events next to the old result |
| RunBundle.MixExample | src/agentRunBundle.ts:94-143 | such a directory exists, and it did not pass before |
| RunBundle.RewrittenPasses | src/debugCorpus.ts:322-414 | a bundle still passes after every LF of result and events became CRLF on disk iff neither held a CRLF when written |
| RunComparison.Subtracted | src/runComparison.ts:317-344 | counting, subtracting and listing gives the multiset difference in ascending order |
| RunComparison.Conservation | src/runComparison.ts:326-335 | current = prior - resolved + introduced, with resolved within prior and introduced disjoint from resolved |
| RunComparison.BuildLogicalStepKeyMap | src/runComparison.ts:433-460 | for each key the kept step has the smallest seq, and its ambiguity records are those of its steps contending in order |
| RunComparison.AmbiguitiesMean | src/runComparison.ts:445-457 | each step of a key but the kept one is dropped once, in favour of a step of that key whose seq is not larger |
| RunComparison.PairwiseBucketA | src/runComparison.ts:488-645 | one entry for each key of either run, strictly ascending, comparing the kept steps; and the ambiguity records of both runs, by key, the prior run's first |
| RunComparison.EntryMeans | src/runComparison.ts:503-561 | an entry has the seq and tool of the kept step on each side; its kind and flags follow from which runs have the key and which of the kept steps are not verified; its code lists are the two multiset differences, each on its side |
| RunComparison.LastByIdMeans | src/runComparison.ts:566-576 | the row of an effect id is the last of that id, and there is none iff no row has it |
| RunComparison.SignaturesMean | src/runComparison.ts:647-660 | a signature is counted once for each step that has it, is not verified and has no verification request |
| RunComparison.DeltaMeans | src/runComparison.ts:576-625 | an effect absent on one side counts as one that passes there without codes: kind, code lists and statuses follow |
| RunComparison.EffectsListed | src/runComparison.ts:572-576 | every effect of either step is listed once, ascending by id |
| RunComparison.BucketAMirrors | src/runComparison.ts:488-645 | swapping the runs mirrors the diff exactly, entry by entry and effect by effect |
| RunComparison.BucketAUnique | src/runComparison.ts:488-645 | the diff is determined by the steps |
| RunComparison.PairwiseBucketB | src/runComparison.ts:647-675 | introduced, resolved and unchanged list the two differences and the intersection of the signature multisets |
| RunComparison.BucketBMirrors | src/runComparison.ts:647-675 | swapping the runs exchanges introduced and resolved and leaves unchanged as it is |
| RunComparison.BucketBUnique | src/runComparison.ts:647-675 | the three lists are determined by the steps |
| RunComparison.BucketBConserves | src/runComparison.ts:647-675 | for every signature current = prior - resolved + introduced, never both, and the rest is unchanged |
| Recurrence.BuildRecurrence | src/runComparison.ts:683-725 | a pattern for exactly the signatures that fail in at least two runs, ascending, with exactly those runs |
| Recurrence.RecurrenceMeans | src/runComparison.ts:683-725 | listed iff two different runs fail with it; its indices are exactly the runs with a failing step of that signature |
| Recurrence.ExemplarsMean | src/runComparison.ts:700-707 | exemplars are the first failing steps of the first three runs hit |
| Recurrence.MaxConsecutiveStreak | src/actionableFailure.ts:1235-1248 | the streak is the length of the longest stretch of consecutive integers |
| Recurrence.BuildActionableCategoryRecurrence | src/actionableFailure.ts:1250-1270 | one row for each category in use other than "complete", in locale order, with exactly its run indices ascending and their longest streak |
| GitNameStatus.ParseGitNameStatusZ | src/planTransition.ts:213-289 | the cursor loop computes the parse of the stream |
| GitNameStatus.ParseEncoded | src/planTransition.ts:213-289 | the parser undoes the encoder for every list of records with NUL-free paths, slashes normalised |
| GitNameStatus.ParseConcat | src/planTransition.ts:229-287 | records in front of any stream give their rows in front of whatever the stream gives |
| GitNameStatus.TextPaths | src/planTransition.ts:218-239 | for paths that are text the rows have the original paths, slashes normalised |
| GitNameStatus.CutStream | src/planTransition.ts:218-227 | a cut stream is accepted iff the cut is at a record boundary, and elsewhere it is rejected as truncated |
| GitNameStatus.AcceptedIsEncoded | src/planTransition.ts:229-287 | whatever is accepted is the encoding of records up to an empty status, at which reading stops |
| PathHarvest.StripAllFencedBlocks | src/planTransitionPathHarvest.ts:81-103 | the lines kept are those outside all fences, each once and in order; a fence runs from an opening line outside earlier fences to the next closing line, or to the end |
| PathHarvest.FencesUnique | src/planTransitionPathHarvest.ts:81-103 | the fences of a text, by positions, are determined |
| PathHarvest.OutsideMeans | src/planTransitionPathHarvest.ts:81-103 | stripping keeps exactly the positions outside fences |
| PathHarvest.WalkObligationLines | src/planTransitionPathHarvest.ts:236-268 | line k is visited, once and in order, iff it is outside every fence, is no heading, and the last heading before it outside fences has an obligation title; its flag says whether that title is a testing one |
| PathHarvest.VisitsMean | src/planTransitionPathHarvest.ts:236-268 | the callbacks of any text are its visited lines by position |
| PathHarvest.StripKeepsVisits | src/planTransitionPathHarvest.ts:81-103 | walking a body visits exactly the lines it visits after fences are stripped, closed or unclosed |
| PathHarvest.FindLastAnchor | src/planTransitionPathHarvest.ts:138-145 | the loop finds the start of the last of the non-overlapping matches |
| PathHarvest.QualifyIdempotent | src/planTransitionPathHarvest.ts:109-155 | qualification is idempotent on what it accepts, whatever the URL parser does |
| PathHarvest.FixedIffAccepted | src/planTransitionPathHarvest.ts:109-155 | qualification leaves a path as it is iff the path has the accepted shape: one root at its start, clean segments and a known extension in lower case |
| PathHarvest.ResultIsTail | src/planTransitionPathHarvest.ts:109-155 | a result is the end of the cleaned text from its last root on, with its extension in lower case |
| PathHarvest.AcceptedPassesPreflight | src/planTransition.ts:107-138 | every accepted path passes pattern preflight |
| PathHarvest.Harvest | src/planTransitionPathHarvest.ts:296-319 | a path is harvested iff a to-do segment cites it, or a visited line that is neither reference-only nor an Expect: line of a testing section does: some fragment names it and passes the gate of its root; each once and ascending, all fixed points of qualification and valid patterns |
| PathHarvest.GateMeans | src/planTransitionPathHarvest.ts:190-212 | a path under a strong root needs an action verb, under a weak one an action verb, a modal verb or a number |
| ExecutionTrace.AssertValidRunEventParentGraph | src/executionTrace.ts:24-57 | accepts iff ids are unique and every parent is the id of a strictly earlier event, otherwise names the first repeated id, or failing that the parent of the first event whose parent is not earlier: as unknown iff no event has that id, else as a forward reference to an event that has it |
| ExecutionTrace.BuildAncestorChain | src/executionTrace.ts:157-169 | for any map, the chain follows parents without repetition until there is none or the guard stops |
| ExecutionTrace.WalkWellFounded | src/executionTrace.ts:144-169 | in every accepted list, whatever the versions and ids, the guard never stops the walk, no id repeats, positions strictly fall, and the chain is no longer than the list |
| ExecutionTrace.NodeStepFalls | src/executionTrace.ts:263-290 | by node positions a step falls iff the parent's id is not the synthetic id of this or a later event |
| ExecutionTrace.NodesCanRise | src/executionTrace.ts:144-149 | an accepted list whose walk goes up by node positions |
| JsonPointer.GetPointer | src/jsonPointer.ts:2-23 | the loop computes the walk over unescaped tokens, and throws iff the text is not empty and does not start with a slash |
| JsonPointer.UnescapeEscape | src/jsonPointer.ts:7-10 | replacing ~1 and then ~0 undoes escaping |
| JsonPointer.TokensOfText | src/jsonPointer.ts:7-10 | the text of any list of tokens reads back as that list |
| JsonPointer.ItemMeans | src/jsonPointer.ts:14-17 | array tokens are accepted iff they are canonical decimal and in range |
| JsonPointer.EvalMatches | src/jsonPointer.ts:2-23 | escaping, joining and evaluating gives the value reached step by step as sections 3 and 4 of RFC 6901 define it, unless the walk ends on an inherited name |
| JsonPointer.InheritedExample | src/jsonPointer.ts:18-20 | the empty object has a value at /constructor |
| ResolveExpectation.ResolveEqualityList | src/resolveExpectation.ts:135-159 | success: up to order one equality for each spec, its column the constant or the non-empty string its pointer reaches, its value the text of the constant or of the scalar reached; failure: the code of the first spec at fault, or of two equal columns |
| ResolveExpectation.ListMeans | src/resolveExpectation.ts:49-159 | the same of the list as a function, stated without the resolvers |
| ResolveExpectation.ListOnce | src/resolveExpectation.ts:118-159 | that statement leaves no choice: what it allows beside a success is that success |
| ResolveExpectation.PointerReaches | src/jsonPointer.ts:2-23 | what a spec's pointer finds is what the walk of RFC 6901 reaches iff the walk does not end on an inherited name |
| ResolveExpectation.NormalizeMeans | src/resolveExpectation.ts:118-133 | a list normalises iff its columns are distinct, and the result is it, sorted strictly |
| ResolveExpectation.RowNormal | src/resolveExpectation.ts:161-261 | a resolved row request has valid identifiers, strictly ascending columns and scalar fields |
| ResolveExpectation.RowMeans | src/resolveExpectation.ts:161-261 | a row request has the table named, one equality for each identity spec and one field for each entry of the object reached, and fails for the first of these at fault |
| ResolveExpectation.AbsentNormal | src/resolveExpectation.ts:263-342 | so has a resolved absence request, its filter disjoint from its identity |
| ResolveExpectation.AbsentMeans | src/resolveExpectation.ts:263-342 | likewise of an absence request, with filter columns outside the identity |
| ResolveExpectation.ResolveSqlEffects | src/resolveExpectation.ts:1042-1060 | success: one effect for each item, with its id and what its row means, ascending by id; failure: the first item whose id was there before or whose row fails, with its code |
| ResolveExpectation.EffectsMean | src/resolveExpectation.ts:1042-1060 | the same of the list as a function |
| ResolveExpectation.EffectsNormal | src/resolveExpectation.ts:1042-1060 | effects resolve iff ids are distinct and every row resolves, to a list strictly ascending by id in normal form |
| ResolveExpectation.RowPermutation | src/resolveExpectation.ts:135-159 | reordering identityEq changes neither success nor the successful result |
| ResolveExpectation.AbsentPermutation | src/resolveExpectation.ts:263-342 | nor does reordering identityEq and filterEq of an absence spec |
| ResolveExpectation.EffectsPermutation | src/resolveExpectation.ts:1042-1060 | nor does reordering the effects |
| ResolveExpectation.EveryFieldRequired | src/resolveExpectation.ts:217-250 | a successful resolution requires every field of the object iff none is named __proto__ |
| ResolveExpectation.ProtoDropped | src/resolveExpectation.ts:217-250 | from an object whose only field is __proto__ resolution succeeds and requires no field |

## Left out

- Messages: reasons are codes with the ids, columns and values they name; human-readable layout, caps on evidence and the order of columns listed in evidence are not part of this model.
- Code tables: origins, dispositions and remediation templates are parameters or absent.
- RunComparison.PairwiseBucketA: the logical step key is a given of each step, because the key text joins unescaped values and is not injective.
- Recurrence.BuildRecurrence: the recurrence signature is a given function of the step.
- Recurrence.BuildActionableCategoryRecurrence: the category histogram beside it is one count for each category and is left out as easy.
- PathHarvest.Harvest: the regular expressions that find link targets, backtick paths, headings, action verbs and reference-only lines are parameters; front matter is taken as already split off.
- RunBundle.WriteAgentRunBundle: signing is a given signature; permissions, directory creation, read errors and concurrent writers are not modelled, and neither is the schema of the manifest beyond well formed or not.
- RunBundle.LoadCorpusRun: covers the integrity checks; what the reader does with the accepted content afterwards is not modelled.
- RelationalCheck.CompiledMeaning: numbers are reals, so rounding in SUM and in drivers is not modelled, and SQL is the subset that the builders emit.
- RelationalSql.QueryTextReadsBack: whether a dialect supports every keyword of the text is not modelled; the source emits LIMIT for every dialect. That BigQuery reads a doubled backtick in a quoted name as one is the source's assumption, taken over by the reader of SQL text.
- SqlReader.ReadSql: the grammar covers the statements that the builders emit, keywords in upper case as they emit them.
- RowReconciler.CountAnswers: a BigQuery table id of several segments is related to its rows by RowSql.AbsentKeeps, because the database of the model names tables by one part.
- RowReconciler.RollupVerified: rows of one table are read at one moment; retries under eventual and bounded policies are not modelled.
- FailureReporting.ExplanationTotal: the truth report is assumed to mirror the engine's steps in seq and tool id, and policies to have finite windows, as validation ensures.
- Verdicts.CheckpointTrustGate.RunCheckpointTrust: registry loading, the database and schema validation of the certificate are parameters or absent, and the irreversible-block finalizer is not modelled.
- ResolveExpectation.EffectsNormal: relational, vector, object storage, HTTP and MongoDB specs resolve by the same scalar resolvers and are not modelled.
- ExecutionTrace.WalkWellFounded: step kinds and verification links of trace nodes are finite lookups and are not modelled.
- Plan rules: YAML parsing, rule evaluation and glob matching are not part of this model.
- Command line, servers, licensing, telemetry, network clients, database drivers, git execution and cryptography are not part of this model.
