/** Failure analysis, explanation and correctness definition: three functions that rely on each other. */
module FailureReporting {
  import opened Sorting
  import opened Utf16
  import opened LogicalSteps
  import opened Verdicts

  // ----- the engine result with its run context

  datatype RetrievalStatus = RetrievalOk | RetrievalEmpty | RetrievalError
  datatype TurnStatus = TurnCompleted | TurnError | TurnAborted | TurnIncomplete
  datatype ControlKind = Branch | Gate | Loop | Interrupt | RunCompleted
  datatype Decision = Taken | Skipped | NoDecision

  datatype Retrieval = Retrieval(ingestIndex: nat, source: Str, status: RetrievalStatus)
  datatype ModelTurn = ModelTurn(ingestIndex: nat, status: TurnStatus)
  datatype Control = Control(ingestIndex: nat, kind: ControlKind, decision: Decision)
  datatype ToolSkip = ToolSkip(ingestIndex: nat, toolId: Str)

  datatype RunContext = RunContext(retrievals: seq<Retrieval>, modelTurns: seq<ModelTurn>, controls: seq<Control>,
                                   toolSkips: seq<ToolSkip>, toolIndexBySeq: map<int, nat>)

  datatype Policy = Strong | Eventual(windowMs: int, pollMs: int) | Bounded(windowMs: int, pollMs: int, stalenessMs: int)

  /** eventSequence is None for a normal run and carries the reason codes of an irregular one. */
  datatype Engine = Engine(result: EngineResult, policy: Policy, eventSequence: Option<seq<string>>, ctx: RunContext)

  /** The fixed tables from reason codes to origins, and the string order of localeCompare. */
  type Origin = string
  datatype Tables = Tables(runLevel: string -> Option<Origin>, eventSequence: string -> Option<Origin>,
                           reason: string -> Option<Origin>, codeLe: (string, string) -> bool, idLe: (Str, Str) -> bool)

  // ----- failure analysis

  datatype Scope = RunLevel | RunContextScope | EventSequence | StepScope | EffectScope
  datatype Evidence = Evidence(scope: Scope, codes: seq<string>, ingestIndex: Option<nat>, seqNo: Option<int>,
                               toolId: Option<Str>, effectId: Option<Str>)
  datatype Confidence = High | Medium | Low
  datatype Analysis = Analysis(primaryOrigin: Origin, confidence: Confidence, unknownReasonCodes: seq<string>,
                               evidence: seq<Evidence>, alternatives: seq<Origin>)

  function SortUnique(codes: seq<string>, t: Tables): seq<string> {
    Sort(Dedup(codes), t.codeLe)
  }

  function MinLex(codes: seq<string>, t: Tables): string
    requires codes != []
  {
    SortUniqueNonempty(codes, t);
    SortUnique(codes, t)[0]
  }

  lemma SortUniqueNonempty(codes: seq<string>, t: Tables)
    ensures SortUnique(codes, t) != [] <==> codes != []
    ensures forall c :: c in SortUnique(codes, t) <==> c in codes
  {
    var d := Dedup(codes);
    SortContents(d, t.codeLe);
    assert codes != [] ==> codes[0] in d;
    forall c ensures c in SortUnique(codes, t) <==> c in codes {
      assert c in SortUnique(codes, t) <==> c in d;
    }
  }

  function Known(table: string -> Option<Origin>): string -> bool { c => table(c).Some? }
  function Unmapped(table: string -> Option<Origin>): string -> bool { c => table(c).None? }

  predicate Failing(s: StepOutcome) { !s.status.Verified? }

  function FailIndices(steps: seq<StepOutcome>, ctx: RunContext): seq<int> {
    if steps == [] then []
    else (if Failing(steps[0]) && steps[0].seqNo in ctx.toolIndexBySeq then [ctx.toolIndexBySeq[steps[0].seqNo]] else [])
         + FailIndices(steps[1..], ctx)
  }

  /** Ingest index of the earliest failing observation, where the run context knows one. */
  function EarliestFailure(steps: seq<StepOutcome>, ctx: RunContext): Option<int> {
    var indices := FailIndices(steps, ctx);
    if indices == [] then None else Some(Min(indices))
  }

  /** The set of failing sequence numbers, in insertion order. */
  method FailingSeqSet(steps: seq<StepOutcome>) returns (f: seq<int>)
    ensures Distinct(f)
    ensures forall n :: n in f <==> exists i :: 0 <= i < |steps| && Failing(steps[i]) && steps[i].seqNo == n
  {
    f := [];
    for i := 0 to |steps|
      invariant Distinct(f)
      invariant forall n :: n in f <==> exists j :: 0 <= j < i && Failing(steps[j]) && steps[j].seqNo == n
    {
      if Failing(steps[i]) && steps[i].seqNo !in f {
        f := f + [steps[i].seqNo];
      }
    }
  }

  lemma {:induction false} FailIndicesOf(steps: seq<StepOutcome>, ctx: RunContext)
    ensures forall k :: k in FailIndices(steps, ctx) <==>
              exists i :: 0 <= i < |steps| && Failing(steps[i]) && steps[i].seqNo in ctx.toolIndexBySeq
                          && ctx.toolIndexBySeq[steps[i].seqNo] == k
  {
    if steps != [] {
      FailIndicesOf(steps[1..], ctx);
      assert steps == [steps[0]] + steps[1..];
      assert forall i :: 1 <= i < |steps| ==> steps[i] == steps[1..][i - 1];
    }
  }

  ghost predicate IsEarliest(seen: seq<int>, ctx: RunContext, r: Option<int>) {
    var hits := set n | n in seen && n in ctx.toolIndexBySeq :: ctx.toolIndexBySeq[n];
    if hits == {} then r == None else r.Some? && r.value in hits && forall k :: k in hits ==> r.value <= k
  }

  lemma EarliestStep(seen: seq<int>, ctx: RunContext, r: Option<int>, n: int)
    requires IsEarliest(seen, ctx, r)
    ensures var k := if n in ctx.toolIndexBySeq && (r.None? || ctx.toolIndexBySeq[n] < r.value)
                     then Some(ctx.toolIndexBySeq[n]) else r;
            IsEarliest(seen + [n], ctx, k)
  {
    var hits := set m | m in seen && m in ctx.toolIndexBySeq :: ctx.toolIndexBySeq[m];
    var more := set m | m in seen + [n] && m in ctx.toolIndexBySeq :: ctx.toolIndexBySeq[m];
    assert more == hits + if n in ctx.toolIndexBySeq then {ctx.toolIndexBySeq[n]} else {};
  }

  /** The loop over the set of failing sequence numbers finds the earliest indexed failure. */
  method EarliestFailureIndex(steps: seq<StepOutcome>, ctx: RunContext) returns (r: Option<int>)
    ensures r == EarliestFailure(steps, ctx)
  {
    var f := FailingSeqSet(steps);
    r := None;
    for i := 0 to |f|
      invariant IsEarliest(f[..i], ctx, r)
    {
      EarliestStep(f[..i], ctx, r, f[i]);
      assert f[..i + 1] == f[..i] + [f[i]];
      if f[i] in ctx.toolIndexBySeq && (r.None? || ctx.toolIndexBySeq[f[i]] < r.value) {
        r := Some(ctx.toolIndexBySeq[f[i]]);
      }
    }
    assert f[..|f|] == f;
    EarliestAgrees(steps, ctx, f, r);
  }

  lemma EarliestAgrees(steps: seq<StepOutcome>, ctx: RunContext, f: seq<int>, r: Option<int>)
    requires forall n :: n in f <==> exists i :: 0 <= i < |steps| && Failing(steps[i]) && steps[i].seqNo == n
    requires IsEarliest(f, ctx, r)
    ensures r == EarliestFailure(steps, ctx)
  {
    FailIndicesOf(steps, ctx);
    var hits := set n | n in f && n in ctx.toolIndexBySeq :: ctx.toolIndexBySeq[n];
    var indices := FailIndices(steps, ctx);
    assert forall k :: k in indices <==> k in hits;
    if indices != [] {
      var m := Min(indices);
      assert m in hits;
    }
  }

  const ROLLUP_CODES := ["MULTI_EFFECT_PARTIAL", "MULTI_EFFECT_ALL_FAILED", "MULTI_EFFECT_INCOMPLETE",
                         "MULTI_EFFECT_UNCERTAIN_WITHIN_WINDOW"]

  predicate IsRollup(s: StepOutcome) { |s.reasonCodes| > 0 && s.reasonCodes[0] in ROLLUP_CODES }

  function EffectLe(t: Tables): (Effect, Effect) -> bool { (a: Effect, b: Effect) => t.idLe(a.id, b.id) }

  function FailingEffects(s: StepOutcome, t: Tables): seq<Effect> {
    Sort(Filter((e: Effect) => !e.status.Verified?, s.effects), EffectLe(t))
  }

  function PrimaryCode(s: StepOutcome, t: Tables): string {
    var failing := FailingEffects(s, t);
    if IsRollup(s) && |failing| > 0 && |failing[0].reasonCodes| > 0 then failing[0].reasonCodes[0]
    else if |s.reasonCodes| > 0 then s.reasonCodes[0]
    else "STEP_NO_REASON"
  }

  function Rank(s: StepStatus): nat {
    match s
    case IncompleteVerification => 0
    case Missing => 1
    case Inconsistent => 2
    case PartiallyVerified => 3
    case Uncertain => 4
    case Verified => 99
  }

  /** The order that chooses the driver step: worst status, then smallest sequence number, then tool id. */
  function DriverLe(t: Tables): (StepOutcome, StepOutcome) -> bool {
    (a: StepOutcome, b: StepOutcome) =>
      Rank(a.status) < Rank(b.status)
      || (Rank(a.status) == Rank(b.status) && (a.seqNo < b.seqNo || (a.seqNo == b.seqNo && t.idLe(a.toolId, b.toolId))))
  }

  function BadSteps(steps: seq<StepOutcome>): seq<StepOutcome> { Filter(Failing, steps) }

  function DriverStep(steps: seq<StepOutcome>, t: Tables): StepOutcome
    requires exists i :: 0 <= i < |steps| && Failing(steps[i])
  {
    DriverExists(steps, t);
    Sort(BadSteps(steps), DriverLe(t))[0]
  }

  lemma DriverExists(steps: seq<StepOutcome>, t: Tables)
    ensures Sort(BadSteps(steps), DriverLe(t)) != [] <==> exists i :: 0 <= i < |steps| && Failing(steps[i])
  {
    SortContents(BadSteps(steps), DriverLe(t));
    if BadSteps(steps) != [] {
      assert BadSteps(steps)[0] in steps;
    }
  }

  function Find<T>(p: T -> bool, s: seq<T>): (r: Option<T>)
    ensures r.Some? ==> r.value in s && p(r.value)
    ensures r.None? ==> forall i :: 0 <= i < |s| ==> !p(s[i])
  {
    if s == [] then None else if p(s[0]) then Some(s[0]) else Find(p, s[1..])
  }

  function TurnCode(s: TurnStatus): string {
    match s
    case TurnCompleted => "MODEL_TURN_COMPLETED"
    case TurnError => "MODEL_TURN_ERROR"
    case TurnAborted => "MODEL_TURN_ABORTED"
    case TurnIncomplete => "MODEL_TURN_INCOMPLETE"
  }

  function ContextEvidence(i: nat, code: string, tool: Option<Str>): Evidence {
    Evidence(RunContextScope, [code], Some(i), None, tool, None)
  }

  function RetrievalFailed(before: int): Retrieval -> bool {
    (e: Retrieval) => e.status.RetrievalError? && e.ingestIndex < before
  }

  function TurnFailed(before: int): ModelTurn -> bool {
    (e: ModelTurn) => !e.status.TurnCompleted? && e.ingestIndex < before
  }

  function Interrupted(before: int): Control -> bool {
    (e: Control) => e.kind.Interrupt? && e.ingestIndex < before
  }

  function PathSkipped(before: int): Control -> bool {
    (e: Control) => (e.kind.Branch? || e.kind.Gate?) && e.decision.Skipped? && e.ingestIndex < before
  }

  function ToolSkippedBefore(before: int): ToolSkip -> bool {
    (e: ToolSkip) => e.ingestIndex < before
  }

  function P1Retrieval(ctx: RunContext, before: int): Option<Analysis> {
    var failed := Filter(RetrievalFailed(before), ctx.retrievals);
    if |failed| == 0 then None else
    Some(Analysis("retrieval", High, [], seq(|failed|, i requires 0 <= i < |failed| =>
      ContextEvidence(failed[i].ingestIndex, "RETRIEVAL_ERROR", None)), []))
  }

  function P2ModelTurn(ctx: RunContext, before: int): Option<Analysis> {
    match Find(TurnFailed(before), ctx.modelTurns)
    case None => None
    case Some(turn) => Some(Analysis("decision_making", High, [], [ContextEvidence(turn.ingestIndex, TurnCode(turn.status), None)], []))
  }

  function P2Interrupt(ctx: RunContext, before: int): Option<Analysis> {
    match Find(Interrupted(before), ctx.controls)
    case None => None
    case Some(c) => Some(Analysis("decision_making", High, [], [ContextEvidence(c.ingestIndex, "CONTROL_INTERRUPT", None)], []))
  }

  function P2bSkipped(ctx: RunContext, before: int): Option<Analysis> {
    match Find(PathSkipped(before), ctx.controls)
    case None => None
    case Some(c) =>
      var code := if c.kind.Branch? then "CONTROL_BRANCH_SKIPPED" else "CONTROL_GATE_SKIPPED";
      Some(Analysis("decision_making", Medium, [], [ContextEvidence(c.ingestIndex, code, None)], ["workflow_flow"]))
  }

  function P3ToolSkipped(ctx: RunContext, before: int): Option<Analysis> {
    match Find(ToolSkippedBefore(before), ctx.toolSkips)
    case None => None
    case Some(e) => Some(Analysis("tool_use", Medium, [], [ContextEvidence(e.ingestIndex, "TOOL_SKIPPED", Some(e.toolId))], []))
  }

  /** Signals before the earliest failing observation, phase by phase. */
  function Upstream(ctx: RunContext, before: int): Option<Analysis> {
    if P1Retrieval(ctx, before).Some? then P1Retrieval(ctx, before)
    else if P2ModelTurn(ctx, before).Some? then P2ModelTurn(ctx, before)
    else if P2Interrupt(ctx, before).Some? then P2Interrupt(ctx, before)
    else if P2bSkipped(ctx, before).Some? then P2bSkipped(ctx, before)
    else P3ToolSkipped(ctx, before)
  }

  function CodesAnalysis(codes: seq<string>, table: string -> Option<Origin>, scope: Scope, partial: Confidence, t: Tables): Analysis {
    var unique := SortUnique(codes, t);
    var knownOnly := Filter(Known(table), unique);
    var unknown := SortUnique(Filter(Unmapped(table), unique), t);
    var origin := if knownOnly != [] && table(MinLex(knownOnly, t)).Some? then table(MinLex(knownOnly, t)).value else "workflow_flow";
    var confidence := if unknown != [] then Low else if |Dedup(codes)| == 1 then High else partial;
    Analysis(origin, confidence, unknown, [Evidence(scope, unique, None, None, None, None)], [])
  }

  function Alternatives(code: string): seq<Origin> {
    if code == "ROW_ABSENT" then ["downstream_system_state", "tool_use"]
    else if code == "VALUE_MISMATCH" then ["downstream_system_state", "inputs"]
    else []
  }

  function StepAnalysis(driver: StepOutcome, t: Tables): Analysis {
    var code := PrimaryCode(driver, t);
    var mapped := t.reason(code);
    var alternatives := Alternatives(code);
    var confidence := if code == "STEP_NO_REASON" || mapped.None? then Low else if alternatives != [] then Medium else High;
    var failing := FailingEffects(driver, t);
    var effect := if IsRollup(driver) && code != driver.reasonCodes[0] && |failing| > 0
                  then [Evidence(EffectScope, [code], None, Some(driver.seqNo), None, Some(failing[0].id))] else [];
    Analysis(if mapped.Some? then mapped.value else "workflow_flow", confidence, if mapped.Some? then [] else [code],
             [Evidence(StepScope, [code], None, Some(driver.seqNo), Some(driver.toolId), None)] + effect, alternatives)
  }

  /** None for a complete run. A run without a failing step has no driver; then the source reads a missing element. */
  datatype Outcome<T> = Nothing | Built(value: T) | Thrown(error: string)

  function DownstreamAnalysis(e: Engine, t: Tables): Outcome<Analysis> {
    var steps := e.result.steps;
    if e.eventSequence.Some? then Built(CodesAnalysis(e.eventSequence.value, t.eventSequence, EventSequence, High, t))
    else if |steps| == 0 then
      Built(Analysis("workflow_flow", High, [], [Evidence(StepScope, ["NO_STEPS_FOR_WORKFLOW"], None, None, None, None)], []))
    else if exists i :: 0 <= i < |steps| && Failing(steps[i]) then Built(StepAnalysis(DriverStep(steps, t), t))
    else Thrown("no driver step")
  }

  function UpstreamOf(e: Engine): Option<Analysis> {
    var iFail := EarliestFailure(e.result.steps, e.ctx);
    if iFail.Some? then Upstream(e.ctx, iFail.value) else None
  }

  function BuildFailureAnalysis(e: Engine, t: Tables): Outcome<Analysis> {
    if e.result.status.Complete? then Nothing
    else if |e.result.runLevelCodes| > 0 then Built(CodesAnalysis(e.result.runLevelCodes, t.runLevel, RunLevel, Medium, t))
    else if UpstreamOf(e).Some? then Built(UpstreamOf(e).value)
    else DownstreamAnalysis(e, t)
  }

  // ----- failure explanation

  datatype PolicyMode = StrongMode | EventualMode

  /** policyFragment: only the two modes it knows are accepted. */
  function PolicyFragment(p: Policy): Outcome<PolicyMode> {
    match p
    case Strong => Built(StrongMode)
    case Eventual(_, _) => Built(EventualMode)
    case Bounded(_, _, _) => Thrown("EXPLANATION_VERIFICATION_POLICY_INVALID")
  }

  datatype TruthStep = TruthStep(seqNo: int, toolId: Str, verifyTarget: Option<Str>)

  /** code is the one the texts explain; detailFound: the record that a detail describes was there to describe. */
  datatype Explanation = Explanation(facts: map<string, string>, code: string, detailFound: bool)

  function ScopeName(s: Scope): string {
    match s
    case RunLevel => "run_level"
    case RunContextScope => "run_context"
    case EventSequence => "event_sequence"
    case StepScope => "step"
    case EffectScope => "effect"
  }

  predicate DetailFound(ctx: RunContext, i: nat, code: string) {
    if code == "RETRIEVAL_ERROR" then
      exists k :: 0 <= k < |ctx.retrievals| && ctx.retrievals[k].ingestIndex == i && ctx.retrievals[k].status.RetrievalError?
    else if code == "CONTROL_INTERRUPT" then
      exists k :: 0 <= k < |ctx.controls| && ctx.controls[k].ingestIndex == i && ctx.controls[k].kind.Interrupt?
    else if code == "CONTROL_BRANCH_SKIPPED" then
      exists k :: 0 <= k < |ctx.controls| && ctx.controls[k].ingestIndex == i && ctx.controls[k].kind.Branch? && ctx.controls[k].decision.Skipped?
    else if code == "CONTROL_GATE_SKIPPED" then
      exists k :: 0 <= k < |ctx.controls| && ctx.controls[k].ingestIndex == i && ctx.controls[k].kind.Gate? && ctx.controls[k].decision.Skipped?
    else if code == "TOOL_SKIPPED" then exists k :: 0 <= k < |ctx.toolSkips| && ctx.toolSkips[k].ingestIndex == i
    else exists k :: 0 <= k < |ctx.modelTurns| && ctx.modelTurns[k].ingestIndex == i && TurnCode(ctx.modelTurns[k].status) == code
  }

  function DriverOf(steps: seq<StepOutcome>, n: int, tool: Str): Option<StepOutcome> {
    Find((s: StepOutcome) => s.seqNo == n && s.toolId == tool, steps)
  }

  function TruthOf(steps: seq<TruthStep>, n: int, tool: Str): Option<TruthStep> {
    Find((s: TruthStep) => s.seqNo == n && s.toolId == tool, steps)
  }

  /** Run-level reasons: the first of the mapped codes, or of all if none is mapped. */
  function RunLevelCode(codes: seq<string>, t: Tables): string
    requires codes != []
  {
    SortUniqueNonempty(codes, t);
    var unique := SortUnique(codes, t);
    var knownOnly := Filter(Known(t.runLevel), unique);
    if |knownOnly| > 0 then MinLex(knownOnly, t) else MinLex(unique, t)
  }

  function Explain(e: Engine, truth: seq<TruthStep>, e0: Evidence, t: Tables): Outcome<Explanation>
    requires e0.codes != []
  {
    var facts := map["primary_scope" := ScopeName(e0.scope)];
    var code := MinLex(e0.codes, t);
    match e0.scope
    case RunLevel =>
      var first := RunLevelCode(e0.codes, t);
      Built(Explanation(facts, first, first in e.result.runLevelCodes))
    case EventSequence => Built(Explanation(facts, code, e.eventSequence.Some? && code in e.eventSequence.value))
    case RunContextScope =>
      if e0.ingestIndex.None? then Thrown("EXPLANATION_RUN_CONTEXT_INDEX_MISSING")
      else Built(Explanation(facts, code, DetailFound(e.ctx, e0.ingestIndex.value, code)))
    case StepScope =>
      if code == "NO_STEPS_FOR_WORKFLOW" then Built(Explanation(facts, code, true))
      else if e0.seqNo.None? || e0.toolId.None? then Thrown("EXPLANATION_STEP_TRUTH_MISMATCH")
      else if DriverOf(e.result.steps, e0.seqNo.value, e0.toolId.value).None? then Thrown("EXPLANATION_STEP_TRUTH_MISMATCH")
      else if TruthOf(truth, e0.seqNo.value, e0.toolId.value).None? then Thrown("EXPLANATION_STEP_TRUTH_MISMATCH")
      else Built(Explanation(facts, code, true))
    case EffectScope => Thrown("EXPLANATION_PRIMARY_EVIDENCE_SCOPE_EFFECT")
  }

  function ExplainAnalysis(e: Engine, truth: seq<TruthStep>, r: Outcome<Analysis>, t: Tables): Outcome<Explanation> {
    match r
    case Thrown(error) => Thrown(error)
    case Nothing => Thrown("EXPLANATION_EVIDENCE_CODES_EMPTY")
    case Built(fa) =>
      if |fa.evidence| == 0 then Thrown("evidence[0] missing")
      else if fa.evidence[0].scope.EffectScope? then Thrown("EXPLANATION_PRIMARY_EVIDENCE_SCOPE_EFFECT")
      else if fa.evidence[0].codes == [] then Thrown("EXPLANATION_EVIDENCE_CODES_EMPTY")
      else Explain(e, truth, fa.evidence[0], t)
  }

  function BuildFailureExplanation(e: Engine, truth: seq<TruthStep>, t: Tables): Outcome<Explanation> {
    if e.result.status.Complete? then Nothing
    else match PolicyFragment(e.policy)
    case Thrown(error) => Thrown(error)
    case _ => ExplainAnalysis(e, truth, BuildFailureAnalysis(e, t), t)
  }

  // ----- correctness definition

  datatype Enforcement = RunIngestIntegrity | EventCaptureIntegrity | RunContextFairness(contract: string) | StepExpectation

  function ContractFor(code: string): Outcome<string> {
    if code == "RETRIEVAL_ERROR" then Built("retrieval_ok_before_observation")
    else if code == "MODEL_TURN_ERROR" || code == "MODEL_TURN_ABORTED" || code == "MODEL_TURN_INCOMPLETE" then
      Built("model_turn_completed_before_observation")
    else if code == "CONTROL_INTERRUPT" then Built("no_interrupt_before_observation")
    else if code == "CONTROL_BRANCH_SKIPPED" then Built("branch_not_skipped_before_observation")
    else if code == "CONTROL_GATE_SKIPPED" then Built("gate_not_skipped_before_observation")
    else if code == "TOOL_SKIPPED" then Built("tool_not_skipped_before_observation")
    else Thrown("CORRECTNESS_UNKNOWN_RUN_CONTEXT_CODE")
  }

  function BuildCorrectnessDefinition(e: Engine, fe: Explanation, fa: Analysis, truth: seq<TruthStep>, t: Tables): Outcome<Enforcement>
    requires |fa.evidence| > 0
  {
    var e0 := fa.evidence[0];
    var codes := SortUnique(e0.codes, t);
    if "primary_scope" !in fe.facts then Thrown("CORRECTNESS_PRIMARY_SCOPE_MISSING")
    else if PolicyFragment(e.policy).Thrown? then Thrown("EXPLANATION_VERIFICATION_POLICY_INVALID")
    else
    var scope := fe.facts["primary_scope"];
    if scope == "step" && "NO_STEPS_FOR_WORKFLOW" in codes then Built(RunIngestIntegrity)
    else if scope == "run_level" then Built(RunIngestIntegrity)
    else if scope == "event_sequence" then Built(EventCaptureIntegrity)
    else if scope == "run_context" then
      if e0.ingestIndex.None? then Thrown("CORRECTNESS_RUN_CONTEXT_INDEX_MISSING")
      else match ContractFor(if |codes| > 0 then codes[0] else "")
        case Built(contract) => Built(RunContextFairness(contract))
        case Thrown(error) => Thrown(error)
        case Nothing => Nothing
    else if scope == "step" then
      if e0.seqNo.None? || e0.toolId.None? then Thrown("CORRECTNESS_PRIMARY_SCOPE_MISSING")
      else if DriverOf(e.result.steps, e0.seqNo.value, e0.toolId.value).None? then Thrown("CORRECTNESS_PRIMARY_SCOPE_MISSING")
      else if TruthOf(truth, e0.seqNo.value, e0.toolId.value).None? then Thrown("CORRECTNESS_PRIMARY_SCOPE_MISSING")
      else Built(StepExpectation)
    else Thrown("CORRECTNESS_PRIMARY_SCOPE_MISSING")
  }

  // ----- what the functions guarantee each other

  ghost predicate Occurs<T(!new)>(p: T -> bool, s: seq<T>) {
    exists x :: x in s && p(x)
  }

  /** A run-context signal that can explain a failure observed at index `before`. */
  ghost predicate Signal(ctx: RunContext, before: int) {
    || Occurs(RetrievalFailed(before), ctx.retrievals)
    || Occurs(TurnFailed(before), ctx.modelTurns)
    || Occurs(Interrupted(before), ctx.controls)
    || Occurs(PathSkipped(before), ctx.controls)
    || Occurs(ToolSkippedBefore(before), ctx.toolSkips)
  }

  /** Evidence that the explanation can describe and the correctness definition has a contract for. */
  ghost predicate GoodContextEvidence(ctx: RunContext, before: int, e: Evidence) {
    && e.scope.RunContextScope? && |e.codes| == 1
    && e.ingestIndex.Some? && e.ingestIndex.value < before
    && DetailFound(ctx, e.ingestIndex.value, e.codes[0])
    && ContractFor(e.codes[0]).Built?
  }

  ghost predicate GoodContextAnalysis(ctx: RunContext, before: int, r: Option<Analysis>) {
    r.Some? ==> r.value.evidence != [] &&
                forall i :: 0 <= i < |r.value.evidence| ==> GoodContextEvidence(ctx, before, r.value.evidence[i])
  }

  lemma FindIff<T(!new)>(p: T -> bool, s: seq<T>)
    ensures Find(p, s).Some? <==> Occurs(p, s)
  {
    assert Find(p, s).Some? ==> Find(p, s).value in s;
  }

  lemma P1Sound(ctx: RunContext, before: int)
    ensures P1Retrieval(ctx, before).Some? <==> Occurs(RetrievalFailed(before), ctx.retrievals)
    ensures GoodContextAnalysis(ctx, before, P1Retrieval(ctx, before))
  {
    var p := RetrievalFailed(before);
    var failed := Filter(p, ctx.retrievals);
    forall i | 0 <= i < |failed|
      ensures failed[i] in ctx.retrievals && p(failed[i]) && DetailFound(ctx, failed[i].ingestIndex, "RETRIEVAL_ERROR")
    {
      assert failed[i] in ctx.retrievals;
      var k :| 0 <= k < |ctx.retrievals| && ctx.retrievals[k] == failed[i];
    }
    if failed != [] {
      var x := failed[0];
      assert x in ctx.retrievals && p(x);
    }
    if Occurs(p, ctx.retrievals) {
      var x :| x in ctx.retrievals && p(x);
      var k :| 0 <= k < |ctx.retrievals| && ctx.retrievals[k] == x;
      assert x in failed;
    }
  }

  lemma TurnCodeContract(s: TurnStatus)
    requires !s.TurnCompleted?
    ensures ContractFor(TurnCode(s)).Built?
    ensures TurnCode(s) != "RETRIEVAL_ERROR" && TurnCode(s) != "CONTROL_INTERRUPT" && TurnCode(s) != "CONTROL_BRANCH_SKIPPED"
    ensures TurnCode(s) != "CONTROL_GATE_SKIPPED" && TurnCode(s) != "TOOL_SKIPPED"
  {
    assert |TurnCode(s)| > 12 && TurnCode(s)[0] == 'M';
  }

  lemma P2ModelTurnSound(ctx: RunContext, before: int)
    ensures P2ModelTurn(ctx, before).Some? <==> Occurs(TurnFailed(before), ctx.modelTurns)
    ensures GoodContextAnalysis(ctx, before, P2ModelTurn(ctx, before))
  {
    FindIff(TurnFailed(before), ctx.modelTurns);
    match Find(TurnFailed(before), ctx.modelTurns)
    case None =>
    case Some(turn) => TurnCodeContract(turn.status);
  }

  lemma P2InterruptSound(ctx: RunContext, before: int)
    ensures P2Interrupt(ctx, before).Some? <==> Occurs(Interrupted(before), ctx.controls)
    ensures GoodContextAnalysis(ctx, before, P2Interrupt(ctx, before))
  {
    FindIff(Interrupted(before), ctx.controls);
  }

  lemma P2bSound(ctx: RunContext, before: int)
    ensures P2bSkipped(ctx, before).Some? <==> Occurs(PathSkipped(before), ctx.controls)
    ensures GoodContextAnalysis(ctx, before, P2bSkipped(ctx, before))
  {
    FindIff(PathSkipped(before), ctx.controls);
  }

  lemma P3Sound(ctx: RunContext, before: int)
    ensures P3ToolSkipped(ctx, before).Some? <==> Occurs(ToolSkippedBefore(before), ctx.toolSkips)
    ensures GoodContextAnalysis(ctx, before, P3ToolSkipped(ctx, before))
  {
    FindIff(ToolSkippedBefore(before), ctx.toolSkips);
  }

  /** Run-context evidence precedes the earliest failing observation and names a record that is there. */
  lemma UpstreamSound(ctx: RunContext, before: int)
    ensures Upstream(ctx, before).Some? <==> Signal(ctx, before)
    ensures GoodContextAnalysis(ctx, before, Upstream(ctx, before))
  {
    P1Sound(ctx, before);
    P2ModelTurnSound(ctx, before);
    P2InterruptSound(ctx, before);
    P2bSound(ctx, before);
    P3Sound(ctx, before);
  }

  /** What the aggregate and event loading hand over. */
  ghost predicate Aggregated(e: Engine, incoming: seq<string>) {
    && e.result == Aggregate(e.result.steps, incoming)
    && (e.eventSequence.Some? ==> e.eventSequence.value != [])
  }

  ghost predicate TruthMirrors(truth: seq<TruthStep>, steps: seq<StepOutcome>) {
    |truth| == |steps| && forall i :: 0 <= i < |truth| ==> truth[i].seqNo == steps[i].seqNo && truth[i].toolId == steps[i].toolId
  }

  /** A run-context signal before the earliest failing observation. */
  ghost predicate SignalFirst(e: Engine) {
    var iFail := EarliestFailure(e.result.steps, e.ctx);
    iFail.Some? && Signal(e.ctx, iFail.value)
  }

  /** Which kind of evidence comes first: run level, then upstream run context, then event order, then the driver step. */
  ghost function FirstScope(e: Engine): Scope {
    if e.result.runLevelCodes != [] then RunLevel
    else if SignalFirst(e) then RunContextScope
    else if e.eventSequence.Some? then EventSequence
    else StepScope
  }

  lemma SomeStepFails(e: Engine, incoming: seq<string>)
    requires Aggregated(e, incoming) && !e.result.status.Complete? && e.result.runLevelCodes == []
    ensures exists i :: 0 <= i < |e.result.steps| && Failing(e.result.steps[i])
  {
    StatusDecides(e.result.steps, incoming);
  }

  lemma DriverIsStep(steps: seq<StepOutcome>, t: Tables)
    requires exists i :: 0 <= i < |steps| && Failing(steps[i])
    ensures DriverStep(steps, t) in steps && Failing(DriverStep(steps, t))
  {
    DriverExists(steps, t);
    SortContents(BadSteps(steps), DriverLe(t));
    var d := DriverStep(steps, t);
    assert d in Sort(BadSteps(steps), DriverLe(t));
    assert d in BadSteps(steps);
  }

  lemma DriverOrder(t: Tables)
    requires TotalPreorder(t.idLe)
    ensures TotalPreorder(DriverLe(t))
  {
    var le := DriverLe(t);
    forall a, b ensures le(a, b) || le(b, a) {
      assert t.idLe(a.toolId, b.toolId) || t.idLe(b.toolId, a.toolId);
    }
    forall a, b, c | le(a, b) && le(b, c) ensures le(a, c) {
      assert t.idLe(a.toolId, b.toolId) && t.idLe(b.toolId, c.toolId) ==> t.idLe(a.toolId, c.toolId);
    }
  }

  /** The driver step comes before every other failing step in the documented order. */
  lemma DriverIsWorst(steps: seq<StepOutcome>, t: Tables, s: StepOutcome)
    requires TotalPreorder(t.idLe) && s in steps && Failing(s)
    ensures DriverLe(t)(DriverStep(steps, t), s)
  {
    DriverExists(steps, t);
    var bad := BadSteps(steps);
    DriverOrder(t);
    SortContents(bad, DriverLe(t));
    SortSorted(bad, DriverLe(t));
    assert s in bad;
    LeastIsFirst(Sort(bad, DriverLe(t)), DriverLe(t), s);
  }

  /** The driver step and its truth step can be found again from the evidence. */
  ghost predicate Resolves(e: Engine, truth: seq<TruthStep>, e0: Evidence) {
    && e0.seqNo.Some? && e0.toolId.Some? && |e0.codes| == 1
    && DriverOf(e.result.steps, e0.seqNo.value, e0.toolId.value).Some?
    && TruthOf(truth, e0.seqNo.value, e0.toolId.value).Some?
  }

  /** Primary evidence with codes, of the first scope that applies, that the later functions can work with. */
  ghost predicate GoodEvidence(e: Engine, truth: seq<TruthStep>, e0: Evidence) {
    && e0.codes != [] && e0.scope == FirstScope(e)
    && match e0.scope
       case RunLevel => forall c :: c in e0.codes ==> c in e.result.runLevelCodes
       case EventSequence => e.eventSequence.Some? && forall c :: c in e0.codes ==> c in e.eventSequence.value
       case RunContextScope => EarliestFailure(e.result.steps, e.ctx).Some?
                               && GoodContextEvidence(e.ctx, EarliestFailure(e.result.steps, e.ctx).value, e0)
       case StepScope => Resolves(e, truth, e0)
       case EffectScope => false
  }

  lemma CodesEvidence(codes: seq<string>, table: string -> Option<Origin>, scope: Scope, partial: Confidence, t: Tables)
    requires codes != []
    ensures var fa := CodesAnalysis(codes, table, scope, partial, t);
            && |fa.evidence| == 1 && fa.evidence[0].scope == scope && fa.evidence[0].codes != []
            && forall c :: c in fa.evidence[0].codes ==> c in codes
  {
    SortUniqueNonempty(codes, t);
  }

  lemma StepEvidence(e: Engine, incoming: seq<string>, truth: seq<TruthStep>, t: Tables)
    requires Aggregated(e, incoming) && TruthMirrors(truth, e.result.steps)
    requires !e.result.status.Complete? && e.result.runLevelCodes == []
    ensures exists i :: 0 <= i < |e.result.steps| && Failing(e.result.steps[i])
    ensures var fa := StepAnalysis(DriverStep(e.result.steps, t), t);
            fa.evidence != [] && fa.evidence[0].scope.StepScope? && Resolves(e, truth, fa.evidence[0])
  {
    var steps := e.result.steps;
    SomeStepFails(e, incoming);
    DriverIsStep(steps, t);
    var d := DriverStep(steps, t);
    var i :| 0 <= i < |steps| && steps[i] == d;
    assert truth[i].seqNo == d.seqNo && truth[i].toolId == d.toolId;
  }

  ghost predicate GoodAnalysis(e: Engine, truth: seq<TruthStep>, r: Outcome<Analysis>) {
    r.Built? && r.value.evidence != [] && GoodEvidence(e, truth, r.value.evidence[0])
  }

  lemma UpstreamGood(e: Engine, truth: seq<TruthStep>)
    requires e.result.runLevelCodes == []
    ensures UpstreamOf(e).Some? <==> SignalFirst(e)
    ensures UpstreamOf(e).Some? ==> GoodAnalysis(e, truth, Built(UpstreamOf(e).value))
  {
    var iFail := EarliestFailure(e.result.steps, e.ctx);
    if iFail.Some? {
      UpstreamSound(e.ctx, iFail.value);
    }
  }

  lemma DownstreamGood(e: Engine, incoming: seq<string>, truth: seq<TruthStep>, t: Tables)
    requires Aggregated(e, incoming) && TruthMirrors(truth, e.result.steps) && !e.result.status.Complete?
    requires e.result.runLevelCodes == [] && !SignalFirst(e)
    ensures GoodAnalysis(e, truth, DownstreamAnalysis(e, t))
  {
    if e.eventSequence.Some? {
      CodesEvidence(e.eventSequence.value, t.eventSequence, EventSequence, High, t);
    } else {
      StepEvidence(e, incoming, truth, t);
    }
  }

  /** Every unfinished run gets an analysis with usable primary evidence. */
  lemma AnalysisTotal(e: Engine, incoming: seq<string>, truth: seq<TruthStep>, t: Tables)
    requires Aggregated(e, incoming) && TruthMirrors(truth, e.result.steps) && !e.result.status.Complete?
    ensures GoodAnalysis(e, truth, BuildFailureAnalysis(e, t))
  {
    if e.result.runLevelCodes != [] {
      CodesEvidence(e.result.runLevelCodes, t.runLevel, RunLevel, Medium, t);
    } else {
      UpstreamGood(e, truth);
      if !SignalFirst(e) {
        DownstreamGood(e, incoming, truth, t);
      }
    }
  }

  lemma SingleCode(code: string, t: Tables)
    ensures SortUnique([code], t) == [code]
  {
    var s := [code];
    var before := s[..|s| - 1];
    assert before == [];
    assert Dedup(before) == [];
    assert code !in Dedup(before);
    assert Dedup(s) == Dedup(before) + [code] == [code];
    assert Sort([code], t.codeLe) == Insert(code, Sort([code][1..], t.codeLe), t.codeLe);
  }

  lemma MinLexOccurs(codes: seq<string>, t: Tables)
    requires codes != []
    ensures MinLex(codes, t) in codes
  {
    SortUniqueNonempty(codes, t);
    var c := SortUnique(codes, t)[0];
    assert c in SortUnique(codes, t);
  }

  lemma MinLexLeast(codes: seq<string>, t: Tables)
    requires codes != [] && TotalPreorder(t.codeLe)
    ensures forall c :: c in codes ==> t.codeLe(MinLex(codes, t), c)
  {
    SortUniqueNonempty(codes, t);
    SortSorted(Dedup(codes), t.codeLe);
    forall c | c in codes ensures t.codeLe(MinLex(codes, t), c) {
      LeastIsFirst(SortUnique(codes, t), t.codeLe, c);
    }
  }

  /** The codes that may be explained: run-level reasons give way to mapped ones. */
  ghost predicate Candidate(c: string, e0: Evidence, t: Tables) {
    c in e0.codes && (e0.scope.RunLevel? && (exists d :: d in e0.codes && t.runLevel(d).Some?) ==> t.runLevel(c).Some?)
  }

  /** The explained code is the least candidate. */
  ghost predicate ExplainsLeast(code: string, e0: Evidence, t: Tables) {
    Candidate(code, e0, t) && (TotalPreorder(t.codeLe) ==> forall c :: Candidate(c, e0, t) ==> t.codeLe(code, c))
  }

  lemma KnownKept(c: string, codes: seq<string>, table: string -> Option<Origin>)
    ensures c in Filter(Known(table), codes) <==> c in codes && table(c).Some?
  {
    if c in codes && table(c).Some? {
      assert Known(table)(c);
    }
  }

  lemma RunLevelLeast(e0: Evidence, t: Tables)
    requires e0.codes != [] && e0.scope.RunLevel?
    ensures ExplainsLeast(RunLevelCode(e0.codes, t), e0, t)
  {
    SortUniqueNonempty(e0.codes, t);
    var unique := SortUnique(e0.codes, t);
    var knownOnly := Filter(Known(t.runLevel), unique);
    var pool := if |knownOnly| > 0 then knownOnly else unique;
    assert |knownOnly| > 0 <==> exists d :: d in e0.codes && t.runLevel(d).Some? by {
      if |knownOnly| > 0 {
        var d := knownOnly[0];
        assert d in unique && Known(t.runLevel)(d);
      }
      if exists d :: d in e0.codes && t.runLevel(d).Some? {
        var d :| d in e0.codes && t.runLevel(d).Some?;
        KnownKept(d, unique, t.runLevel);
      }
    }
    forall c ensures c in pool <==> Candidate(c, e0, t) {
      KnownKept(c, unique, t.runLevel);
    }
    MinLexOccurs(pool, t);
    if TotalPreorder(t.codeLe) {
      MinLexLeast(pool, t);
    }
  }

  lemma PrimaryLeast(e0: Evidence, t: Tables)
    requires e0.codes != [] && !e0.scope.RunLevel?
    ensures ExplainsLeast(MinLex(e0.codes, t), e0, t)
  {
    MinLexOccurs(e0.codes, t);
    if TotalPreorder(t.codeLe) {
      MinLexLeast(e0.codes, t);
    }
  }

  ghost predicate Explained(r: Outcome<Explanation>, e0: Evidence, t: Tables) {
    && r.Built? && r.value.detailFound && r.value.facts == map["primary_scope" := ScopeName(e0.scope)]
    && ExplainsLeast(r.value.code, e0, t)
  }

  lemma Explains(e: Engine, truth: seq<TruthStep>, e0: Evidence, t: Tables)
    requires GoodEvidence(e, truth, e0)
    ensures Explained(Explain(e, truth, e0, t), e0, t)
  {
    MinLexOccurs(e0.codes, t);
    if |e0.codes| == 1 {
      SingleCode(e0.codes[0], t);
      assert e0.codes == [e0.codes[0]];
    }
    if e0.scope.RunLevel? {
      RunLevelLeast(e0, t);
    } else {
      PrimaryLeast(e0, t);
    }
  }

  lemma ExplainsAnalysis(e: Engine, truth: seq<TruthStep>, r: Outcome<Analysis>, t: Tables)
    requires GoodAnalysis(e, truth, r)
    ensures Explained(ExplainAnalysis(e, truth, r, t), r.value.evidence[0], t)
  {
    Explains(e, truth, r.value.evidence[0], t);
  }

  lemma ExplainsUnfinished(e: Engine, truth: seq<TruthStep>, r: Outcome<Analysis>, t: Tables)
    requires !e.result.status.Complete? && r == BuildFailureAnalysis(e, t) && GoodAnalysis(e, truth, r)
    ensures var fe := BuildFailureExplanation(e, truth, t);
            if e.policy.Bounded? then fe == Thrown("EXPLANATION_VERIFICATION_POLICY_INVALID")
            else Explained(fe, r.value.evidence[0], t)
  {
    ExplainsAnalysis(e, truth, r, t);
    assert BuildFailureExplanation(e, truth, t) == match PolicyFragment(e.policy)
                                                   case Thrown(error) => Thrown(error)
                                                   case _ => ExplainAnalysis(e, truth, r, t);
  }

  /** Failure reporting throws exactly for an unfinished run under the bounded policy, and then for the policy only. */
  lemma ExplanationTotal(e: Engine, incoming: seq<string>, truth: seq<TruthStep>, t: Tables)
    requires Aggregated(e, incoming) && TruthMirrors(truth, e.result.steps)
    ensures var r, fa := BuildFailureExplanation(e, truth, t), BuildFailureAnalysis(e, t);
            && (r.Thrown? <==> !e.result.status.Complete? && e.policy.Bounded?)
            && (r.Thrown? ==> r.error == "EXPLANATION_VERIFICATION_POLICY_INVALID")
            && (r.Nothing? <==> e.result.status.Complete?)
            && (r.Built? ==> fa.Built? && |fa.value.evidence| > 0 && Explained(r, fa.value.evidence[0], t))
  {
    if !e.result.status.Complete? {
      AnalysisTotal(e, incoming, truth, t);
      ExplainsUnfinished(e, truth, BuildFailureAnalysis(e, t), t);
    }
  }

  /** What is enforced, by the scope of the primary evidence. */
  ghost predicate Enforces(en: Enforcement, e0: Evidence) {
    match e0.scope
    case RunLevel => en == RunIngestIntegrity
    case EventSequence => en == EventCaptureIntegrity
    case RunContextScope => |e0.codes| == 1 && en.RunContextFairness? && ContractFor(e0.codes[0]) == Built(en.contract)
    case StepScope => en == if "NO_STEPS_FOR_WORKFLOW" in e0.codes then RunIngestIntegrity else StepExpectation
    case EffectScope => false
  }

  lemma Defines(e: Engine, fe: Explanation, fa: Analysis, truth: seq<TruthStep>, t: Tables)
    requires |fa.evidence| > 0 && !e.policy.Bounded? && GoodEvidence(e, truth, fa.evidence[0])
    requires fe.facts == map["primary_scope" := ScopeName(fa.evidence[0].scope)]
    ensures BuildCorrectnessDefinition(e, fe, fa, truth, t).Built?
    ensures Enforces(BuildCorrectnessDefinition(e, fe, fa, truth, t).value, fa.evidence[0])
  {
    SortUniqueNonempty(fa.evidence[0].codes, t);
    var codes := fa.evidence[0].codes;
    if |codes| == 1 {
      SingleCode(codes[0], t);
      assert codes == [codes[0]];
    }
  }

  lemma DefinesGood(e: Engine, r: Outcome<Analysis>, truth: seq<TruthStep>, t: Tables)
    requires GoodAnalysis(e, truth, r) && !e.policy.Bounded?
    ensures var fe := ExplainAnalysis(e, truth, r, t);
            && fe.Built? && BuildCorrectnessDefinition(e, fe.value, r.value, truth, t).Built?
            && Enforces(BuildCorrectnessDefinition(e, fe.value, r.value, truth, t).value, r.value.evidence[0])
  {
    ExplainsAnalysis(e, truth, r, t);
    Defines(e, ExplainAnalysis(e, truth, r, t).value, r.value, truth, t);
  }

  /** Under the other policies every unfinished run gets a correctness definition, too. */
  lemma CorrectnessTotal(e: Engine, incoming: seq<string>, truth: seq<TruthStep>, t: Tables)
    requires Aggregated(e, incoming) && TruthMirrors(truth, e.result.steps)
    requires !e.result.status.Complete? && !e.policy.Bounded?
    ensures var fa, fe := BuildFailureAnalysis(e, t), BuildFailureExplanation(e, truth, t);
            && fa.Built? && |fa.value.evidence| > 0 && fe.Built?
            && BuildCorrectnessDefinition(e, fe.value, fa.value, truth, t).Built?
            && Enforces(BuildCorrectnessDefinition(e, fe.value, fa.value, truth, t).value, fa.value.evidence[0])
  {
    AnalysisTotal(e, incoming, truth, t);
    DefinesGood(e, BuildFailureAnalysis(e, t), truth, t);
  }

  /** A valid bounded policy and one missing row are enough to lose the whole report. */
  lemma BoundedPolicyThrows(t: Tables)
    ensures var step := StepOutcome(1, [], false, Missing, ["ROW_ABSENT"], [], 1, None);
            var e := Engine(Aggregate([step], []), Bounded(1, 1, 1), None, RunContext([], [], [], [], map[]));
            && Aggregated(e, []) && TruthMirrors([TruthStep(1, [], None)], e.result.steps)
            && BuildFailureExplanation(e, [TruthStep(1, [], None)], t).Thrown?
  {
    var step := StepOutcome(1, [], false, Missing, ["ROW_ABSENT"], [], 1, None);
    StatusDecides([step], []);
  }
}
