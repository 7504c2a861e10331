/** What a failure analysis says, from the engine result alone: the phases in their documented order, and what each reports. */
module FailureAttribution {
  import opened Sorting
  import opened Utf16
  import opened LogicalSteps
  import opened Verdicts
  import opened FailureReporting

  // ----- where the run first failed

  ghost predicate FailsAt(e: Engine, i: int) {
    exists k :: 0 <= k < |e.result.steps| && !e.result.steps[k].status.Verified? && e.result.steps[k].seqNo in e.ctx.toolIndexBySeq
                && e.ctx.toolIndexBySeq[e.result.steps[k].seqNo] == i
  }

  /** i is the least ingest index of a failing observation. */
  ghost predicate FirstFailsAt(e: Engine, i: int) { FailsAt(e, i) && forall j :: FailsAt(e, j) ==> i <= j }

  /** The analysis works with that index, or with none if no failing observation was ingested. */
  lemma EarliestMeans(e: Engine)
    ensures match EarliestFailure(e.result.steps, e.ctx)
            case Some(i) => FirstFailsAt(e, i)
            case None => forall i :: !FailsAt(e, i)
  {
    var steps := e.result.steps;
    FailIndicesOf(steps, e.ctx);
    var indices := FailIndices(steps, e.ctx);
    forall i ensures i in indices <==> FailsAt(e, i) {}
    if indices == [] {
      forall i ensures !FailsAt(e, i) { assert i !in indices; }
    }
  }

  // ----- run-context signals before it

  predicate RetrievalFails(r: Retrieval, i: int) { r.status.RetrievalError? && r.ingestIndex < i }
  predicate TurnFails(m: ModelTurn, i: int) { (m.status.TurnError? || m.status.TurnAborted? || m.status.TurnIncomplete?) && m.ingestIndex < i }
  predicate Interrupts(c: Control, i: int) { c.kind.Interrupt? && c.ingestIndex < i }
  predicate SkipsPath(c: Control, i: int) { (c.kind.Branch? || c.kind.Gate?) && c.decision.Skipped? && c.ingestIndex < i }
  predicate SkipsTool(s: ToolSkip, i: int) { s.ingestIndex < i }

  /** One run-context record as evidence. */
  predicate IsRecord(ev: Evidence, index: nat, code: string, tool: Option<Str>) {
    ev.scope.RunContextScope? && ev.codes == [code] && ev.ingestIndex == Some(index) && ev.toolId == tool
  }

  predicate Says(fa: Analysis, origin: Origin, confidence: Confidence, alternatives: seq<Origin>) {
    fa.primaryOrigin == origin && fa.confidence == confidence && fa.unknownReasonCodes == [] && fa.alternatives == alternatives
  }

  /** ks are the positions of all failed retrievals before i, in order. */
  ghost predicate FailedRetrievals(ks: seq<nat>, rs: seq<Retrieval>, i: int) {
    && (forall a, b :: 0 <= a < b < |ks| ==> ks[a] < ks[b])
    && forall k: nat :: k in ks <==> k < |rs| && RetrievalFails(rs[k], i)
  }

  /** Failed retrievals: the origin is retrieval, and every one of them is evidence. */
  ghost predicate BlamesRetrieval(fa: Analysis, ctx: RunContext, i: int) {
    Says(fa, "retrieval", High, []) &&
    exists ks :: FailedRetrievals(ks, ctx.retrievals, i) && |fa.evidence| == |ks| && ks != []
                 && forall a :: 0 <= a < |ks| && ks[a] < |ctx.retrievals| ==>
                      IsRecord(fa.evidence[a], ctx.retrievals[ks[a]].ingestIndex, "RETRIEVAL_ERROR", None)
  }

  function TurnText(s: TurnStatus): string {
    match s
    case TurnError => "MODEL_TURN_ERROR"
    case TurnAborted => "MODEL_TURN_ABORTED"
    case TurnIncomplete => "MODEL_TURN_INCOMPLETE"
    case TurnCompleted => ""
  }

  /** The first failed model turn is the evidence. */
  ghost predicate BlamesTurn(fa: Analysis, ctx: RunContext, i: int) {
    Says(fa, "decision_making", High, []) && |fa.evidence| == 1 &&
    exists k :: 0 <= k < |ctx.modelTurns| && TurnFails(ctx.modelTurns[k], i)
                && (forall j :: 0 <= j < k ==> !TurnFails(ctx.modelTurns[j], i))
                && IsRecord(fa.evidence[0], ctx.modelTurns[k].ingestIndex, TurnText(ctx.modelTurns[k].status), None)
  }

  ghost predicate BlamesInterrupt(fa: Analysis, ctx: RunContext, i: int) {
    Says(fa, "decision_making", High, []) && |fa.evidence| == 1 &&
    exists k :: 0 <= k < |ctx.controls| && Interrupts(ctx.controls[k], i) && (forall j :: 0 <= j < k ==> !Interrupts(ctx.controls[j], i))
                && IsRecord(fa.evidence[0], ctx.controls[k].ingestIndex, "CONTROL_INTERRUPT", None)
  }

  ghost predicate BlamesPath(fa: Analysis, ctx: RunContext, i: int) {
    Says(fa, "decision_making", Medium, ["workflow_flow"]) && |fa.evidence| == 1 &&
    exists k :: 0 <= k < |ctx.controls| && SkipsPath(ctx.controls[k], i) && (forall j :: 0 <= j < k ==> !SkipsPath(ctx.controls[j], i))
                && IsRecord(fa.evidence[0], ctx.controls[k].ingestIndex,
                            if ctx.controls[k].kind.Branch? then "CONTROL_BRANCH_SKIPPED" else "CONTROL_GATE_SKIPPED", None)
  }

  ghost predicate BlamesSkip(fa: Analysis, ctx: RunContext, i: int) {
    Says(fa, "tool_use", Medium, []) && |fa.evidence| == 1 &&
    exists k :: 0 <= k < |ctx.toolSkips| && SkipsTool(ctx.toolSkips[k], i) && (forall j :: 0 <= j < k ==> !SkipsTool(ctx.toolSkips[j], i))
                && IsRecord(fa.evidence[0], ctx.toolSkips[k].ingestIndex, "TOOL_SKIPPED", Some(ctx.toolSkips[k].toolId))
  }

  ghost predicate HasRetrieval(ctx: RunContext, i: int) { exists r :: r in ctx.retrievals && RetrievalFails(r, i) }
  ghost predicate HasTurn(ctx: RunContext, i: int) { exists m :: m in ctx.modelTurns && TurnFails(m, i) }
  ghost predicate HasInterrupt(ctx: RunContext, i: int) { exists c :: c in ctx.controls && Interrupts(c, i) }
  ghost predicate HasPath(ctx: RunContext, i: int) { exists c :: c in ctx.controls && SkipsPath(c, i) }
  ghost predicate HasSkip(ctx: RunContext, i: int) { exists s :: s in ctx.toolSkips && SkipsTool(s, i) }

  /** A signal of some phase before i. */
  ghost predicate SomeSignal(ctx: RunContext, i: int) {
    HasRetrieval(ctx, i) || HasTurn(ctx, i) || HasInterrupt(ctx, i) || HasPath(ctx, i) || HasSkip(ctx, i)
  }

  /** The first phase that has a signal decides. */
  ghost predicate BlamesContext(fa: Analysis, ctx: RunContext, i: int) {
    if HasRetrieval(ctx, i) then BlamesRetrieval(fa, ctx, i)
    else if HasTurn(ctx, i) then BlamesTurn(fa, ctx, i)
    else if HasInterrupt(ctx, i) then BlamesInterrupt(fa, ctx, i)
    else if HasPath(ctx, i) then BlamesPath(fa, ctx, i)
    else BlamesSkip(fa, ctx, i)
  }

  // ----- lists of codes

  ghost predicate SomeMapped(codes: seq<string>, table: string -> Option<Origin>) { exists c :: c in codes && table(c).Some? }

  ghost predicate LeastMapped(c: string, codes: seq<string>, table: string -> Option<Origin>, t: Tables) {
    && c in codes && table(c).Some?
    && (TotalPreorder(t.codeLe) ==> forall d :: d in codes && table(d).Some? ==> t.codeLe(c, d))
  }

  /** All codes are evidence, each once; the least mapped one gives the origin; unmapped ones lower the confidence. */
  ghost predicate BlamesCodes(fa: Analysis, codes: seq<string>, table: string -> Option<Origin>, scope: Scope, several: Confidence, t: Tables) {
    && fa.alternatives == [] && |fa.evidence| == 1 && fa.evidence[0].scope == scope
    && Distinct(fa.evidence[0].codes) && (forall c :: c in fa.evidence[0].codes <==> c in codes)
    && Distinct(fa.unknownReasonCodes) && (forall c :: c in fa.unknownReasonCodes <==> c in codes && table(c).None?)
    && (if SomeMapped(codes, table) then exists c :: LeastMapped(c, codes, table, t) && table(c) == Some(fa.primaryOrigin)
        else fa.primaryOrigin == "workflow_flow")
    && (fa.confidence == if exists c :: c in codes && table(c).None? then Low
                         else if forall c, d :: c in codes && d in codes ==> c == d then High
                         else several)
  }

  // ----- the driver step

  const SEVERITY: seq<StepStatus> := [IncompleteVerification, Missing, Inconsistent, PartiallyVerified, Uncertain]

  /** a comes before b: by status in the documented order, then by sequence number, then by tool id. */
  ghost predicate Drives(a: StepOutcome, b: StepOutcome, t: Tables) {
    || (exists i, j :: 0 <= i < j < |SEVERITY| && SEVERITY[i] == a.status && SEVERITY[j] == b.status)
    || (a.status == b.status && (a.seqNo < b.seqNo || (a.seqNo == b.seqNo && t.idLe(a.toolId, b.toolId))))
  }

  ghost predicate IsDriver(d: StepOutcome, steps: seq<StepOutcome>, t: Tables) {
    && d in steps && !d.status.Verified?
    && (TotalPreorder(t.idLe) ==> forall s :: s in steps && !s.status.Verified? ==> Drives(d, s, t))
  }

  ghost predicate LeastFailingEffect(x: Effect, s: StepOutcome, t: Tables) {
    && x in s.effects && !x.status.Verified?
    && (TotalPreorder(t.idLe) ==> forall y :: y in s.effects && !y.status.Verified? ==> t.idLe(x.id, y.id))
  }

  ghost predicate SomeEffectFails(s: StepOutcome) { exists x :: x in s.effects && !x.status.Verified? }

  ghost predicate RollsUp(s: StepOutcome) {
    s.reasonCodes != [] && s.reasonCodes[0] in {"MULTI_EFFECT_PARTIAL", "MULTI_EFFECT_ALL_FAILED", "MULTI_EFFECT_INCOMPLETE",
                                               "MULTI_EFFECT_UNCERTAIN_WITHIN_WINDOW"}
  }

  function OwnCode(s: StepOutcome): string { if s.reasonCodes != [] then s.reasonCodes[0] else "STEP_NO_REASON" }

  /** The code of a step: its own, or under a rollup that of the least failing effect if that has one. */
  ghost predicate CodeOfStep(s: StepOutcome, code: string, t: Tables) {
    if RollsUp(s) && SomeEffectFails(s)
    then exists x :: LeastFailingEffect(x, s, t) && code == if x.reasonCodes != [] then x.reasonCodes[0] else OwnCode(s)
    else code == OwnCode(s)
  }

  /** The driver step is the evidence, with its failing effect if a rollup has another code; its code gives the origin. */
  ghost predicate BlamesStep(fa: Analysis, d: StepOutcome, code: string, t: Tables) {
    && CodeOfStep(d, code, t)
    && fa.primaryOrigin == (match t.reason(code) case Some(o) => o case None => "workflow_flow")
    && fa.unknownReasonCodes == (if t.reason(code).Some? then [] else [code])
    && fa.alternatives == (if code == "ROW_ABSENT" then ["downstream_system_state", "tool_use"]
                           else if code == "VALUE_MISMATCH" then ["downstream_system_state", "inputs"] else [])
    && fa.confidence == (if code == "STEP_NO_REASON" || t.reason(code).None? then Low
                         else if code == "ROW_ABSENT" || code == "VALUE_MISMATCH" then Medium else High)
    && fa.evidence != [] && fa.evidence[0] == Evidence(StepScope, [code], None, Some(d.seqNo), Some(d.toolId), None)
    && (if RollsUp(d) && code != d.reasonCodes[0]
        then |fa.evidence| == 2 && exists x :: LeastFailingEffect(x, d, t)
                                               && fa.evidence[1] == Evidence(EffectScope, [code], None, Some(d.seqNo), None, Some(x.id))
        else |fa.evidence| == 1)
  }

  // ----- the whole analysis

  /**
   * Run-level reasons first, then signals before the first failing observation, then an irregular event sequence, and
   * the driver step last.
   */
  ghost predicate Attributes(fa: Analysis, e: Engine, t: Tables) {
    if e.result.runLevelCodes != [] then BlamesCodes(fa, e.result.runLevelCodes, t.runLevel, RunLevel, Medium, t)
    else if exists i :: FirstFailsAt(e, i) && SomeSignal(e.ctx, i) then
      exists i :: FirstFailsAt(e, i) && SomeSignal(e.ctx, i) && BlamesContext(fa, e.ctx, i)
    else if e.eventSequence.Some? then BlamesCodes(fa, e.eventSequence.value, t.eventSequence, EventSequence, High, t)
    else exists d, code :: IsDriver(d, e.result.steps, t) && BlamesStep(fa, d, code, t)
  }

  // ----- proofs

  lemma {:induction false} FoundFirst<T(!new)>(p: T -> bool, s: seq<T>) returns (k: nat)
    requires Find(p, s).Some?
    ensures k < |s| && p(s[k]) && s[k] == Find(p, s).value && forall j :: 0 <= j < k ==> !p(s[j])
  {
    if p(s[0]) {
      k := 0;
    } else {
      k := FoundFirst(p, s[1..]);
      assert forall j :: 1 <= j < |s| ==> s[j] == s[1..][j - 1];
      k := k + 1;
    }
  }

  lemma FoundIff<T(!new)>(p: T -> bool, s: seq<T>)
    ensures Find(p, s).Some? <==> exists x :: x in s && p(x)
  {
    FindIff(p, s);
  }

  ghost predicate AreKept<T>(ks: seq<nat>, p: T -> bool, s: seq<T>) { forall k: nat :: k in ks <==> k < |s| && p(s[k]) }

  lemma KeptMore<T(!new)>(ks: seq<nat>, p: T -> bool, s: seq<T>, x: T)
    requires AreKept(ks, p, s)
    ensures AreKept(if p(x) then ks + [|s|] else ks, p, s + [x])
  {
    var more, all := if p(x) then ks + [|s|] else ks, s + [x];
    forall k: nat ensures k in more <==> k < |all| && p(all[k]) {
      assert k in more <==> k in ks || (p(x) && k == |s|);
      assert k < |s| ==> all[k] == s[k];
    }
  }

  ghost predicate Rising(ks: seq<nat>) { forall a, b :: 0 <= a < b < |ks| ==> ks[a] < ks[b] }

  lemma RisingMore(ks: seq<nat>, n: nat)
    requires Rising(ks) && forall k :: k in ks ==> k < n
    ensures Rising(ks + [n])
  {
    forall a, b | 0 <= a < b < |ks| + 1 ensures (ks + [n])[a] < (ks + [n])[b] {
      assert ks[a] in ks;
    }
  }

  /** The elements that the filter keeps are those at these positions, in this order. */
  ghost predicate Picks<T>(ks: seq<nat>, p: T -> bool, s: seq<T>) {
    |ks| == |Filter(p, s)| && forall a :: 0 <= a < |ks| && ks[a] < |s| ==> Filter(p, s)[a] == s[ks[a]]
  }

  lemma PicksMore<T(!new)>(ks: seq<nat>, p: T -> bool, s: seq<T>, x: T)
    requires Picks(ks, p, s) && forall k :: k in ks ==> k < |s|
    ensures Picks(if p(x) then ks + [|s|] else ks, p, s + [x])
  {
    FilterConcat(p, s, [x]);
    assert [x][1..] == [] && Filter(p, [x]) == if p(x) then [x] else [];
    var kept := Filter(p, s + [x]);
    assert kept == Filter(p, s) + if p(x) then [x] else [];
    forall a | 0 <= a < |ks| ensures ks[a] < |s| && kept[a] == (s + [x])[ks[a]] {
      assert ks[a] in ks;
    }
  }

  ghost predicate FilterPositions<T>(ks: seq<nat>, p: T -> bool, s: seq<T>) {
    Rising(ks) && AreKept(ks, p, s) && Picks(ks, p, s)
  }

  lemma FilterOneMore<T(!new)>(ks: seq<nat>, p: T -> bool, s: seq<T>, x: T)
    requires FilterPositions(ks, p, s)
    ensures FilterPositions(if p(x) then ks + [|s|] else ks, p, s + [x])
  {
    KeptMore(ks, p, s, x);
    PicksMore(ks, p, s, x);
    RisingMore(ks, |s|);
  }

  /** Where the elements that a filter keeps come from. */
  lemma {:induction false} FilterFrom<T(!new)>(p: T -> bool, s: seq<T>) returns (ks: seq<nat>)
    ensures FilterPositions(ks, p, s)
  {
    if s == [] {
      ks := [];
    } else {
      var front, x := s[..|s| - 1], s[|s| - 1];
      assert s == front + [x];
      ks := FilterFrom(p, front);
      FilterOneMore(ks, p, front, x);
      if p(x) { ks := ks + [|front|]; }
    }
  }

  lemma RetrievalsFound(ctx: RunContext, i: int)
    ensures P1Retrieval(ctx, i).Some? <==> HasRetrieval(ctx, i)
  {
    var failed := Filter(RetrievalFailed(i), ctx.retrievals);
    if failed != [] {
      assert failed[0] in ctx.retrievals && RetrievalFails(failed[0], i);
    }
    if exists r :: r in ctx.retrievals && RetrievalFails(r, i) {
      var r :| r in ctx.retrievals && RetrievalFails(r, i);
      assert RetrievalFailed(i)(r);
      assert r in failed;
    }
  }

  lemma RetrievalPositions(ctx: RunContext, i: int) returns (ks: seq<nat>)
    ensures FailedRetrievals(ks, ctx.retrievals, i)
    ensures var failed := Filter(RetrievalFailed(i), ctx.retrievals);
            |ks| == |failed| && forall a :: 0 <= a < |ks| && ks[a] < |ctx.retrievals| ==> failed[a] == ctx.retrievals[ks[a]]
  {
    ks := FilterFrom(RetrievalFailed(i), ctx.retrievals);
  }

  lemma RetrievalBlamed(ctx: RunContext, i: int)
    ensures P1Retrieval(ctx, i).Some? <==> HasRetrieval(ctx, i)
    ensures P1Retrieval(ctx, i).Some? ==> BlamesRetrieval(P1Retrieval(ctx, i).value, ctx, i)
  {
    RetrievalsFound(ctx, i);
    var ks := RetrievalPositions(ctx, i);
    if P1Retrieval(ctx, i).Some? {
      var fa := P1Retrieval(ctx, i).value;
      assert |fa.evidence| == |ks| && ks != [];
      forall a | 0 <= a < |ks| && ks[a] < |ctx.retrievals|
        ensures IsRecord(fa.evidence[a], ctx.retrievals[ks[a]].ingestIndex, "RETRIEVAL_ERROR", None) {}
    }
  }

  lemma TurnBlamed(ctx: RunContext, i: int)
    ensures P2ModelTurn(ctx, i).Some? <==> HasTurn(ctx, i)
    ensures P2ModelTurn(ctx, i).Some? ==> BlamesTurn(P2ModelTurn(ctx, i).value, ctx, i)
  {
    var p := TurnFailed(i);
    FoundIff(p, ctx.modelTurns);
    forall m ensures p(m) <==> TurnFails(m, i) {}
    if Find(p, ctx.modelTurns).Some? {
      var k := FoundFirst(p, ctx.modelTurns);
      assert TurnFails(ctx.modelTurns[k], i) && forall j :: 0 <= j < k ==> !TurnFails(ctx.modelTurns[j], i);
    }
  }

  lemma InterruptBlamed(ctx: RunContext, i: int)
    ensures P2Interrupt(ctx, i).Some? <==> HasInterrupt(ctx, i)
    ensures P2Interrupt(ctx, i).Some? ==> BlamesInterrupt(P2Interrupt(ctx, i).value, ctx, i)
  {
    var p := Interrupted(i);
    FoundIff(p, ctx.controls);
    forall c ensures p(c) <==> Interrupts(c, i) {}
    if Find(p, ctx.controls).Some? {
      var k := FoundFirst(p, ctx.controls);
      assert Interrupts(ctx.controls[k], i) && forall j :: 0 <= j < k ==> !Interrupts(ctx.controls[j], i);
    }
  }

  lemma PathBlamed(ctx: RunContext, i: int)
    ensures P2bSkipped(ctx, i).Some? <==> HasPath(ctx, i)
    ensures P2bSkipped(ctx, i).Some? ==> BlamesPath(P2bSkipped(ctx, i).value, ctx, i)
  {
    var p := PathSkipped(i);
    FoundIff(p, ctx.controls);
    forall c ensures p(c) <==> SkipsPath(c, i) {}
    if Find(p, ctx.controls).Some? {
      var k := FoundFirst(p, ctx.controls);
      assert SkipsPath(ctx.controls[k], i) && forall j :: 0 <= j < k ==> !SkipsPath(ctx.controls[j], i);
    }
  }

  lemma SkipBlamed(ctx: RunContext, i: int)
    ensures P3ToolSkipped(ctx, i).Some? <==> HasSkip(ctx, i)
    ensures P3ToolSkipped(ctx, i).Some? ==> BlamesSkip(P3ToolSkipped(ctx, i).value, ctx, i)
  {
    var p := ToolSkippedBefore(i);
    FoundIff(p, ctx.toolSkips);
    forall s ensures p(s) <==> SkipsTool(s, i) {}
    if Find(p, ctx.toolSkips).Some? {
      var k := FoundFirst(p, ctx.toolSkips);
      assert SkipsTool(ctx.toolSkips[k], i) && forall j :: 0 <= j < k ==> !SkipsTool(ctx.toolSkips[j], i);
    }
  }

  lemma ContextBlamed(ctx: RunContext, i: int)
    ensures Upstream(ctx, i).Some? <==> SomeSignal(ctx, i)
    ensures Upstream(ctx, i).Some? ==> BlamesContext(Upstream(ctx, i).value, ctx, i)
  {
    RetrievalBlamed(ctx, i);
    TurnBlamed(ctx, i);
    InterruptBlamed(ctx, i);
    PathBlamed(ctx, i);
    SkipBlamed(ctx, i);
  }

  lemma DedupOne(codes: seq<string>)
    requires codes != []
    ensures |Dedup(codes)| == 1 <==> forall c, d :: c in codes && d in codes ==> c == d
  {
    var u := Dedup(codes);
    assert codes[0] in u;
    if |u| == 1 {
      forall c, d | c in codes && d in codes ensures c == d {
        assert c in u && d in u;
        assert u == [u[0]];
      }
    }
    assert |u| > 1 ==> u[0] in codes && u[1] in codes && u[0] != u[1];
  }

  lemma CodesSorted(codes: seq<string>, t: Tables)
    ensures Distinct(SortUnique(codes, t)) && forall c :: c in SortUnique(codes, t) <==> c in codes
  {
    SortUniqueNonempty(codes, t);
    SortDistinct(Dedup(codes), t.codeLe);
  }

  lemma UnmappedKept(c: string, codes: seq<string>, table: string -> Option<Origin>)
    ensures c in Filter(Unmapped(table), codes) <==> c in codes && table(c).None?
  {
    if c in codes && table(c).None? {
      assert Unmapped(table)(c);
    }
  }

  lemma UnknownCodes(codes: seq<string>, table: string -> Option<Origin>, t: Tables)
    ensures var unknown := SortUnique(Filter(Unmapped(table), SortUnique(codes, t)), t);
            && Distinct(unknown) && (forall c :: c in unknown <==> c in codes && table(c).None?)
            && (unknown != [] <==> exists c :: c in codes && table(c).None?)
  {
    var unique := SortUnique(codes, t);
    var rest := Filter(Unmapped(table), unique);
    CodesSorted(codes, t);
    CodesSorted(rest, t);
    var unknown := SortUnique(rest, t);
    forall c ensures c in unknown <==> c in codes && table(c).None? {
      UnmappedKept(c, unique, table);
    }
    if unknown != [] {
      var c := unknown[0];
      assert c in unknown;
    }
  }

  lemma MappedOrigin(codes: seq<string>, table: string -> Option<Origin>, t: Tables)
    ensures var known := Filter(Known(table), SortUnique(codes, t));
            && (known != [] <==> SomeMapped(codes, table))
            && (known != [] ==> LeastMapped(MinLex(known, t), codes, table, t))
  {
    var unique := SortUnique(codes, t);
    var known := Filter(Known(table), unique);
    CodesSorted(codes, t);
    forall c ensures c in known <==> c in codes && table(c).Some? {
      KnownKept(c, unique, table);
    }
    if known != [] {
      var c := known[0];
      assert c in known;
      MinLexOccurs(known, t);
      if TotalPreorder(t.codeLe) {
        MinLexLeast(known, t);
      }
    }
  }

  lemma CodesBlamed(codes: seq<string>, table: string -> Option<Origin>, scope: Scope, several: Confidence, t: Tables)
    requires codes != []
    ensures BlamesCodes(CodesAnalysis(codes, table, scope, several, t), codes, table, scope, several, t)
  {
    CodesSorted(codes, t);
    UnknownCodes(codes, table, t);
    MappedOrigin(codes, table, t);
    DedupOne(codes);
  }

  lemma RankSeverity(s: StepStatus)
    requires !s.Verified?
    ensures Rank(s) < |SEVERITY| && SEVERITY[Rank(s)] == s
  {
  }

  lemma DriverDrives(steps: seq<StepOutcome>, t: Tables)
    requires exists i :: 0 <= i < |steps| && Failing(steps[i])
    ensures IsDriver(DriverStep(steps, t), steps, t)
  {
    var d := DriverStep(steps, t);
    DriverIsStep(steps, t);
    if TotalPreorder(t.idLe) {
      forall s | s in steps && !s.status.Verified? ensures Drives(d, s, t) {
        DriverIsWorst(steps, t, s);
        RankSeverity(d.status);
        RankSeverity(s.status);
      }
    }
  }

  lemma EffectOrder(t: Tables)
    requires TotalPreorder(t.idLe)
    ensures TotalPreorder(EffectLe(t))
  {
    var le := EffectLe(t);
    forall a, b, c ensures le(a, b) || le(b, a)
                   ensures le(a, b) && le(b, c) ==> le(a, c) {
      assert t.idLe(a.id, b.id) || t.idLe(b.id, a.id);
      assert t.idLe(a.id, b.id) && t.idLe(b.id, c.id) ==> t.idLe(a.id, c.id);
    }
  }

  lemma FailingEffectsMean(s: StepOutcome, t: Tables)
    ensures FailingEffects(s, t) != [] <==> SomeEffectFails(s)
    ensures FailingEffects(s, t) != [] ==> LeastFailingEffect(FailingEffects(s, t)[0], s, t)
  {
    var raw := Filter((e: Effect) => !e.status.Verified?, s.effects);
    var sorted := FailingEffects(s, t);
    SortContents(raw, EffectLe(t));
    forall x ensures x in sorted <==> x in s.effects && !x.status.Verified? {
      assert x in sorted <==> x in raw;
    }
    if sorted != [] {
      var first := sorted[0];
      assert first in sorted;
      if TotalPreorder(t.idLe) {
        EffectOrder(t);
        SortSorted(raw, EffectLe(t));
        forall y | y in s.effects && !y.status.Verified? ensures t.idLe(first.id, y.id) {
          LeastIsFirst(sorted, EffectLe(t), y);
        }
      }
    }
  }

  lemma RollupCodes(s: StepOutcome)
    ensures IsRollup(s) <==> RollsUp(s)
  {
    if s.reasonCodes != [] {
      var c := s.reasonCodes[0];
      assert ROLLUP_CODES[0] == "MULTI_EFFECT_PARTIAL" && ROLLUP_CODES[1] == "MULTI_EFFECT_ALL_FAILED";
      assert ROLLUP_CODES[2] == "MULTI_EFFECT_INCOMPLETE" && ROLLUP_CODES[3] == "MULTI_EFFECT_UNCERTAIN_WITHIN_WINDOW";
      assert c in ROLLUP_CODES <==> c == ROLLUP_CODES[0] || c == ROLLUP_CODES[1] || c == ROLLUP_CODES[2] || c == ROLLUP_CODES[3];
    }
  }

  lemma PrimaryMeans(s: StepOutcome, t: Tables)
    ensures CodeOfStep(s, PrimaryCode(s, t), t)
  {
    FailingEffectsMean(s, t);
    RollupCodes(s);
  }

  lemma StepBlamed(d: StepOutcome, t: Tables)
    ensures BlamesStep(StepAnalysis(d, t), d, PrimaryCode(d, t), t)
  {
    PrimaryMeans(d, t);
    FailingEffectsMean(d, t);
    RollupCodes(d);
  }

  lemma DownstreamBlamed(e: Engine, incoming: seq<string>, t: Tables)
    requires Aggregated(e, incoming) && !e.result.status.Complete? && e.result.runLevelCodes == [] && e.eventSequence.None?
    ensures DownstreamAnalysis(e, t).Built?
    ensures exists d, code :: IsDriver(d, e.result.steps, t) && BlamesStep(DownstreamAnalysis(e, t).value, d, code, t)
  {
    var steps := e.result.steps;
    SomeStepFails(e, incoming);
    DriverDrives(steps, t);
    StepBlamed(DriverStep(steps, t), t);
  }

  /** Every unfinished run is analysed, and the analysis says what its first applicable phase says. */
  lemma AnalysisAttributes(e: Engine, incoming: seq<string>, t: Tables)
    requires Aggregated(e, incoming) && !e.result.status.Complete?
    ensures BuildFailureAnalysis(e, t).Built? && Attributes(BuildFailureAnalysis(e, t).value, e, t)
  {
    if e.result.runLevelCodes != [] {
      CodesBlamed(e.result.runLevelCodes, t.runLevel, RunLevel, Medium, t);
    } else {
      ContextDecides(e);
      if UpstreamOf(e).None? {
        if e.eventSequence.Some? {
          CodesBlamed(e.eventSequence.value, t.eventSequence, EventSequence, High, t);
        } else {
          DownstreamBlamed(e, incoming, t);
        }
      }
    }
  }

  lemma ContextDecides(e: Engine)
    ensures UpstreamOf(e).Some? <==> exists i :: FirstFailsAt(e, i) && SomeSignal(e.ctx, i)
    ensures UpstreamOf(e).Some? ==> exists i :: FirstFailsAt(e, i) && SomeSignal(e.ctx, i) && BlamesContext(UpstreamOf(e).value, e.ctx, i)
  {
    EarliestMeans(e);
    var first := EarliestFailure(e.result.steps, e.ctx);
    if first.Some? {
      ContextBlamed(e.ctx, first.value);
      forall i | FirstFailsAt(e, i) ensures i == first.value {}
    }
  }
}
