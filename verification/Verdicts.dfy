/** From logical steps to step outcomes, workflow status, certificate and production gate. */
module Verdicts {
  import opened Sorting
  import opened Utf16
  import opened LogicalSteps

  datatype StepStatus = Verified | Missing | Inconsistent | IncompleteVerification | PartiallyVerified | Uncertain

  /** A row of evidenceSummary.effects in a multi-effect step. */
  datatype Effect = Effect(id: Str, status: StepStatus, reasonCodes: seq<string>)

  datatype StepOutcome = StepOutcome(seqNo: int, toolId: Str, releaseCritical: bool, status: StepStatus,
                                     reasonCodes: seq<string>, effects: seq<Effect>,
                                     repeatObservationCount: nat, checkpointKey: Option<Str>)

  /** The registry and the database, as far as one observation depends on them. */
  datatype Resolution = Unresolved(code: string) | Executed(status: StepStatus, codes: seq<string>, effects: seq<Effect>)
  datatype Backend = Backend(known: Str -> bool, critical: Str -> bool, check: ToolEvent -> Resolution)

  const SEPARATOR: Unit := 0x1F

  function KeyText(c: Checkpoint): Str { c.threadId + [SEPARATOR] + c.checkpointNs + [SEPARATOR] + c.checkpointId }

  function CheckpointKey(ev: ToolEvent): Option<Str> {
    match ev.wire
    case V3(c) => Some(KeyText(c))
    case _ => None
  }

  function ReleaseCritical(db: Backend, toolId: Str): bool {
    db.known(toolId) && db.critical(toolId)
  }

  function DivergentOutcome(plan: Plan, db: Backend): StepOutcome {
    StepOutcome(plan.seqNo, plan.last.toolId, ReleaseCritical(db, plan.last.toolId), IncompleteVerification,
                ["RETRY_OBSERVATIONS_DIVERGE"], [], plan.repeatObservationCount, CheckpointKey(plan.last))
  }

  function ObservedOutcome(ev: ToolEvent, repeats: nat, db: Backend): StepOutcome {
    var o := StepOutcome(ev.seqNo, ev.toolId, false, IncompleteVerification, ["UNKNOWN_TOOL"], [], repeats, CheckpointKey(ev));
    if !db.known(ev.toolId) then o else
    match db.check(ev)
    case Unresolved(code) => o.(releaseCritical := db.critical(ev.toolId), reasonCodes := [code])
    case Executed(status, codes, effects) =>
      o.(releaseCritical := db.critical(ev.toolId), status := status, reasonCodes := codes, effects := effects)
  }

  function OutcomeOf(plan: Plan, db: Backend): StepOutcome {
    if plan.divergent then DivergentOutcome(plan, db)
    else ObservedOutcome(plan.last, plan.repeatObservationCount, db)
  }

  function Outcomes(plans: seq<Plan>, db: Backend): (r: seq<StepOutcome>)
    ensures |r| == |plans|
  {
    seq(|plans|, i requires 0 <= i < |plans| => OutcomeOf(plans[i], db))
  }

  method VerifyPlans(plans: seq<Plan>, db: Backend) returns (out: seq<StepOutcome>)
    ensures out == Outcomes(plans, db)
  {
    out := [];
    for i := 0 to |plans|
      invariant out == Outcomes(plans[..i], db)
    {
      if plans[i].divergent {
        out := out + [DivergentOutcome(plans[i], db)];
        continue;
      }
      out := out + [ObservedOutcome(plans[i].last, plans[i].repeatObservationCount, db)];
    }
    assert plans[..|plans|] == plans;
  }

  // ----- what the steps of a run are, from its events and the backend alone

  /** The key of a checkpoint is its three names with the separator between them; other events have none. */
  predicate IsKeyOf(key: Option<Str>, ev: ToolEvent) {
    match ev.wire
    case V3(c) => key == Some(Joined([c.threadId, c.checkpointNs, c.checkpointId], SEPARATOR))
    case _ => key == None
  }

  ghost predicate AllAgree(obs: seq<ToolEvent>)
    requires obs != []
  {
    forall o :: o in obs ==> Agrees(o, obs[|obs| - 1])
  }

  /** What a step reports about its last observation, if the observations agree, or about their disagreement. */
  ghost predicate Reports(s: StepOutcome, agree: bool, last: ToolEvent, db: Backend) {
    if !agree then s.status == IncompleteVerification && s.reasonCodes == ["RETRY_OBSERVATIONS_DIVERGE"] && s.effects == []
    else if !db.known(last.toolId) then s.status == IncompleteVerification && s.reasonCodes == ["UNKNOWN_TOOL"] && s.effects == []
    else match db.check(last)
         case Unresolved(code) => s.status == IncompleteVerification && s.reasonCodes == [code] && s.effects == []
         case Executed(status, codes, effects) => s.status == status && s.reasonCodes == codes && s.effects == effects
  }

  /** The step of its sequence number: tool, key and check are those of the last observation. */
  ghost predicate IsStep(s: StepOutcome, events: seq<ToolEvent>, db: Backend) {
    var obs := Observations(events, s.seqNo);
    obs != [] &&
    var last := obs[|obs| - 1];
    && s.toolId == last.toolId && s.repeatObservationCount == |obs| && IsKeyOf(s.checkpointKey, last)
    && (s.releaseCritical <==> db.known(last.toolId) && db.critical(last.toolId))
    && Reports(s, AllAgree(obs), last, db)
  }

  /** One step for each sequence number that occurs, in ascending order. */
  ghost predicate IsStepList(steps: seq<StepOutcome>, events: seq<ToolEvent>, db: Backend) {
    && AscendingInts(SeqsOf(steps))
    && (forall k :: k in SeqsOf(steps) <==> Observations(events, k) != [])
    && (forall i :: 0 <= i < |steps| ==> IsStep(steps[i], events, db))
  }

  lemma KeyIsJoined(ev: ToolEvent)
    ensures IsKeyOf(CheckpointKey(ev), ev)
  {
    if ev.wire.V3? {
      var c := ev.wire.checkpoint;
      JoinedThree(c.threadId, c.checkpointNs, c.checkpointId, SEPARATOR);
    }
  }

  lemma JoinedThree(a: Str, b: Str, c: Str, sep: Unit)
    ensures Joined([a, b, c], sep) == a + [sep] + b + [sep] + c
  {
    assert [a, b, c][1..] == [b, c] && [b, c][1..] == [c];
    assert Joined([c], sep) == c;
    assert Joined([b, c], sep) == b + [sep] + c;
    assert a + [sep] + (b + [sep] + c) == a + [sep] + b + [sep] + c;
  }

  predicate Plain(c: Checkpoint) { SEPARATOR !in c.threadId && SEPARATOR !in c.checkpointNs && SEPARATOR !in c.checkpointId }

  /** Checkpoints whose names are free of the separator have different keys. */
  lemma KeyDistinguishes(a: ToolEvent, b: ToolEvent)
    requires a.wire.V3? && b.wire.V3? && Plain(a.wire.checkpoint) && Plain(b.wire.checkpoint)
    ensures CheckpointKey(a) == CheckpointKey(b) <==> a.wire.checkpoint == b.wire.checkpoint
  {
    var x, y := a.wire.checkpoint, b.wire.checkpoint;
    KeyIsJoined(a);
    KeyIsJoined(b);
    SplitJoined([x.threadId, x.checkpointNs, x.checkpointId], SEPARATOR);
    SplitJoined([y.threadId, y.checkpointNs, y.checkpointId], SEPARATOR);
    if CheckpointKey(a) == CheckpointKey(b) {
      var p, q := [x.threadId, x.checkpointNs, x.checkpointId], [y.threadId, y.checkpointNs, y.checkpointId];
      assert p == q;
      assert p[0] == q[0] && p[1] == q[1] && p[2] == q[2];
    }
  }

  /** The texts around the first separator. */
  lemma Cut(s: Str) returns (x: Str, y: Str)
    requires SEPARATOR in s
    ensures s == x + [SEPARATOR] + y && |x| < |s|
  {
    var i :| 0 <= i < |s| && s[i] == SEPARATOR;
    x, y := s[..i], s[i + 1..];
  }

  /** A checkpoint with the separator in a name shares its key with another one. */
  lemma KeyShared(c: Checkpoint) returns (d: Checkpoint)
    requires !Plain(c)
    ensures d != c && KeyText(d) == KeyText(c)
  {
    if SEPARATOR in c.threadId {
      var x, y := Cut(c.threadId);
      d := Checkpoint(x, y + [SEPARATOR] + c.checkpointNs, c.checkpointId);
      Regroup(x, y, c.checkpointNs, c.checkpointId);
    } else if SEPARATOR in c.checkpointNs {
      var x, y := Cut(c.checkpointNs);
      d := Checkpoint(c.threadId + [SEPARATOR] + x, y, c.checkpointId);
      Regroup(c.threadId, x, y, c.checkpointId);
    } else {
      var x, y := Cut(c.checkpointId);
      d := Checkpoint(c.threadId, c.checkpointNs + [SEPARATOR] + x, y);
      Regroup(c.threadId, c.checkpointNs, x, y);
    }
  }

  lemma Regroup(w: Str, x: Str, y: Str, z: Str)
    ensures (w + [SEPARATOR] + x) + [SEPARATOR] + y + [SEPARATOR] + z == w + [SEPARATOR] + (x + [SEPARATOR] + y) + [SEPARATOR] + z
    ensures w + [SEPARATOR] + (x + [SEPARATOR] + y) + [SEPARATOR] + z == w + [SEPARATOR] + x + [SEPARATOR] + (y + [SEPARATOR] + z)
  {
  }

  lemma PlainCounts(c: Checkpoint)
    ensures Plain(c) <==> multiset(KeyText(c))[SEPARATOR] == 2
  {
  }

  lemma PlainKeyAlone(a: ToolEvent, b: ToolEvent)
    requires a.wire.V3? && b.wire.V3? && Plain(a.wire.checkpoint) && CheckpointKey(b) == CheckpointKey(a)
    ensures b.wire.checkpoint == a.wire.checkpoint
  {
    PlainCounts(a.wire.checkpoint);
    PlainCounts(b.wire.checkpoint);
    KeyDistinguishes(a, b);
  }

  /** The key of an event stands for its checkpoint alone iff none of the names holds the separator. */
  lemma KeyIdentifies(a: ToolEvent)
    requires a.wire.V3?
    ensures Plain(a.wire.checkpoint) <==>
            forall b: ToolEvent :: b.wire.V3? && CheckpointKey(b) == CheckpointKey(a) ==> b.wire.checkpoint == a.wire.checkpoint
  {
    if Plain(a.wire.checkpoint) {
      forall b: ToolEvent | b.wire.V3? && CheckpointKey(b) == CheckpointKey(a) ensures b.wire.checkpoint == a.wire.checkpoint {
        PlainKeyAlone(a, b);
      }
    } else {
      var d := KeyShared(a.wire.checkpoint);
      var b := a.(wire := V3(d));
      assert CheckpointKey(b) == CheckpointKey(a);
    }
  }

  /** Two checkpoints that share a key. */
  lemma KeyCollides(a: ToolEvent, b: ToolEvent)
    requires a.wire == V3(Checkpoint([97, SEPARATOR, 98], [99], [100])) && b.wire == V3(Checkpoint([97], [98, SEPARATOR, 99], [100]))
    ensures a.wire != b.wire && CheckpointKey(a) == CheckpointKey(b)
  {
    assert [97, SEPARATOR, 98] != [97];
    assert [97, SEPARATOR, 98] + [SEPARATOR] + [99] + [SEPARATOR] + [100] == [97] + [SEPARATOR] + [98, SEPARATOR, 99] + [SEPARATOR] + [100];
  }

  lemma PlanStep(p: Plan, events: seq<ToolEvent>, db: Backend)
    requires IsPlan(p, events)
    ensures OutcomeOf(p, db).seqNo == p.seqNo && IsStep(OutcomeOf(p, db), events, db)
  {
    assert p.last in Observations(events, p.seqNo);
    assert AtStep(p.seqNo)(p.last);
    KeyIsJoined(p.last);
    assert p.divergent <==> !AllAgree(p.observations);
  }

  lemma PlanSteps(plans: seq<Plan>, events: seq<ToolEvent>, db: Backend)
    requires IsPlanList(plans, events)
    ensures IsStepList(Outcomes(plans, db), events, db)
  {
    var steps := Outcomes(plans, db);
    forall i | 0 <= i < |steps| ensures steps[i].seqNo == plans[i].seqNo && IsStep(steps[i], events, db) {
      PlanStep(plans[i], events, db);
    }
    assert SeqsOf(steps) == SeqNos(plans);
  }

  lemma StepUnique(s: StepOutcome, t: StepOutcome, a: seq<ToolEvent>, b: seq<ToolEvent>, db: Backend)
    requires IsStep(s, a, db) && IsStep(t, b, db) && s.seqNo == t.seqNo && Observations(a, s.seqNo) == Observations(b, s.seqNo)
    ensures s == t
  {
  }

  lemma StepsUnique(s: seq<StepOutcome>, t: seq<StepOutcome>, a: seq<ToolEvent>, b: seq<ToolEvent>, db: Backend)
    requires IsStepList(s, a, db) && IsStepList(t, b, db) && SameWithinSteps(a, b)
    ensures s == t
  {
    forall k ensures k in SeqsOf(s) <==> k in SeqsOf(t) {
      assert Observations(a, k) == Observations(b, k);
    }
    AscendingIntsUnique(SeqsOf(s), SeqsOf(t));
    assert |s| == |SeqsOf(s)| == |SeqsOf(t)| == |t|;
    forall i | 0 <= i < |s| ensures s[i] == t[i] {
      assert SeqsOf(s)[i] == SeqsOf(t)[i];
      StepUnique(s[i], t[i], a, b, db);
    }
  }

  method RunLogicalStepsVerification(events: seq<ToolEvent>, db: Backend) returns (out: seq<StepOutcome>)
    requires ValidEvents(events)
    ensures IsStepList(out, events, db)
  {
    var plans := PlanLogicalSteps(events);
    out := VerifyPlans(plans, db);
    PlanSteps(plans, events, db);
  }

  /** The observations of a sequence number agree, the tool is known and the check of the last one verifies. */
  ghost predicate Passes(events: seq<ToolEvent>, k: int, db: Backend)
    requires Observations(events, k) != []
  {
    var obs := Observations(events, k);
    var last := obs[|obs| - 1];
    AllAgree(obs) && db.known(last.toolId) && db.check(last).Executed? && db.check(last).status.Verified?
  }

  ghost predicate EverySeqPasses(events: seq<ToolEvent>, db: Backend) {
    forall k :: Observations(events, k) != [] ==> Passes(events, k, db)
  }

  lemma StepPasses(s: StepOutcome, events: seq<ToolEvent>, db: Backend)
    requires IsStep(s, events, db)
    ensures s.status.Verified? <==> Passes(events, s.seqNo, db)
  {
  }

  /** All steps are verified iff every sequence number passes, and there are steps iff there are events. */
  lemma StepsPass(steps: seq<StepOutcome>, events: seq<ToolEvent>, db: Backend)
    requires IsStepList(steps, events, db)
    ensures EveryStepVerified(steps) <==> EverySeqPasses(events, db)
    ensures steps == [] <==> events == []
  {
    forall i | 0 <= i < |steps| ensures steps[i].status.Verified? <==> Passes(events, steps[i].seqNo, db) {
      StepPasses(steps[i], events, db);
    }
    forall k | Observations(events, k) != [] ensures exists i :: 0 <= i < |steps| && steps[i].seqNo == k {
      assert k in SeqsOf(steps);
      var i :| 0 <= i < |steps| && SeqsOf(steps)[i] == k;
    }
    if events != [] {
      var k := events[0].seqNo;
      assert AtStep(k)(events[0]);
      assert events[0] in Observations(events, k);
      assert k in SeqsOf(steps);
    }
    if steps != [] {
      assert IsStep(steps[0], events, db);
    }
  }

  /** A contract run is trusted iff nothing went wrong at run level, there are events, and every sequence number passes. */
  lemma TrustedMeansEverySeqPasses(steps: seq<StepOutcome>, events: seq<ToolEvent>, db: Backend, incoming: seq<string>)
    requires IsStepList(steps, events, db)
    ensures TruthCheckVerdict(ContractCertificate(Aggregate(steps, incoming))) == Trusted <==>
            incoming == [] && events != [] && EverySeqPasses(events, db)
  {
    TrustedMeansAllVerified(steps, incoming);
    StepsPass(steps, events, db);
  }

  // ----- the workflow status

  datatype WorkflowStatus = Complete | Incomplete | InconsistentState

  datatype EngineResult = EngineResult(status: WorkflowStatus, runLevelCodes: seq<string>, steps: seq<StepOutcome>)

  predicate Bad(s: StepStatus) { s.Missing? || s.Inconsistent? || s.PartiallyVerified? }

  predicate SomeStep(steps: seq<StepOutcome>, p: StepStatus -> bool) {
    exists i :: 0 <= i < |steps| && p(steps[i].status)
  }

  predicate EveryStepVerified(steps: seq<StepOutcome>) {
    forall i :: 0 <= i < |steps| ==> steps[i].status.Verified?
  }

  function Aggregate(steps: seq<StepOutcome>, incoming: seq<string>): EngineResult {
    var runLevelCodes := incoming + if |steps| == 0 then ["NO_STEPS_FOR_WORKFLOW"] else [];
    var status :=
      if |runLevelCodes| > 0 || |steps| == 0 || SomeStep(steps, (s: StepStatus) => s.IncompleteVerification?) then Incomplete
      else if SomeStep(steps, Bad) then InconsistentState
      else if EveryStepVerified(steps) then Complete
      else Incomplete;
    EngineResult(status, runLevelCodes, steps)
  }

  /** A verification that was carried through and did not pass: neither verified, nor incomplete, nor uncertain. */
  predicate Fails(s: StepStatus) { !s.Verified? && !s.IncompleteVerification? && !s.Uncertain? }

  /** Which inputs give which status: the three cases exclude each other and cover everything. */
  lemma StatusDecides(steps: seq<StepOutcome>, incoming: seq<string>)
    ensures var r := Aggregate(steps, incoming);
            && r.steps == steps && r.runLevelCodes == incoming + (if steps == [] then ["NO_STEPS_FOR_WORKFLOW"] else [])
            && (r.status.Complete? <==> incoming == [] && steps != [] && EveryStepVerified(steps))
            && (r.status.InconsistentState? <==>
                  incoming == [] && (exists i :: 0 <= i < |steps| && Fails(steps[i].status))
                  && forall i :: 0 <= i < |steps| ==> !steps[i].status.IncompleteVerification?)
  {
    if |steps| > 0 && EveryStepVerified(steps) {
      assert steps[0].status.Verified?;
    }
  }

  // ----- the certificate

  datatype RunKind = ContractSql | LangGraphCheckpointTrust | QuickPreview
  datatype StateRelation = MatchesExpectations | DoesNotMatch | NotEstablished
  datatype Reliance = Permitted | Prohibited
  datatype TruthVerdict = Trusted | NotTrusted | Unknown
  datatype TrustDecision = Safe | Unsafe | UnknownTrust
  datatype GroupVerdict = GroupVerified | GroupInconsistent | GroupIncomplete
  datatype CheckpointVerdict = CheckpointVerdict(checkpointKey: Str, verdict: GroupVerdict, seqs: seq<int>)

  datatype Certificate = Certificate(runKind: RunKind, stateRelation: StateRelation, reliance: Reliance,
                                     releaseCriticalVerdict: TruthVerdict,
                                     checkpointVerdicts: Option<seq<CheckpointVerdict>>)

  function DeriveReliance(kind: RunKind, relation: StateRelation): Reliance {
    if kind.QuickPreview? then Prohibited
    else if relation.MatchesExpectations? then Permitted
    else Prohibited
  }

  function ToStateRelation(r: EngineResult): StateRelation {
    if r.status.Complete? then MatchesExpectations
    else if r.status.InconsistentState? then DoesNotMatch
    else NotEstablished
  }

  function CriticalSteps(r: EngineResult): seq<StepOutcome> {
    Filter((s: StepOutcome) => s.releaseCritical, r.steps)
  }

  function ReleaseCriticalVerdict(r: EngineResult): TruthVerdict {
    var critical := CriticalSteps(r);
    if |critical| == 0 then Trusted
    else if SomeStep(critical, (s: StepStatus) => s.Missing? || s.Inconsistent?) then NotTrusted
    else if SomeStep(critical, (s: StepStatus) => s.IncompleteVerification? || s.Uncertain? || s.PartiallyVerified?) then Unknown
    else Trusted
  }

  function TruthCheckVerdict(c: Certificate): TruthVerdict {
    if c.stateRelation.MatchesExpectations? && c.reliance.Permitted? then Trusted
    else if c.stateRelation.DoesNotMatch? then NotTrusted
    else Unknown
  }

  function Decide(c: Certificate): TrustDecision {
    if c.runKind.QuickPreview? then UnknownTrust
    else if c.reliance.Permitted? then Safe
    else if c.stateRelation.DoesNotMatch? then Unsafe
    else UnknownTrust
  }

  function ContractCertificate(r: EngineResult): Certificate {
    var relation := ToStateRelation(r);
    Certificate(ContractSql, relation, DeriveReliance(ContractSql, relation), ReleaseCriticalVerdict(r), None)
  }

  /**
   * A contract run is trusted iff nothing went wrong at run level, something was verified, and all of it passed; it is
   * not trusted iff all of it could be checked and something failed.
   */
  lemma TrustedMeansAllVerified(steps: seq<StepOutcome>, incoming: seq<string>)
    ensures var c := ContractCertificate(Aggregate(steps, incoming));
            && (TruthCheckVerdict(c) == Trusted <==> incoming == [] && steps != [] && EveryStepVerified(steps))
            && (TruthCheckVerdict(c) == NotTrusted <==>
                  incoming == [] && (exists i :: 0 <= i < |steps| && Fails(steps[i].status))
                  && forall i :: 0 <= i < |steps| ==> !steps[i].status.IncompleteVerification?)
  {
    StatusDecides(steps, incoming);
  }

  ghost predicate SomeCritical(steps: seq<StepOutcome>, p: StepStatus -> bool) {
    exists i :: 0 <= i < |steps| && steps[i].releaseCritical && p(steps[i].status)
  }

  lemma CriticalMeans(r: EngineResult, p: StepStatus -> bool)
    ensures SomeStep(CriticalSteps(r), p) <==> SomeCritical(r.steps, p)
  {
    var critical := CriticalSteps(r);
    if SomeStep(critical, p) {
      var i :| 0 <= i < |critical| && p(critical[i].status);
      var x := critical[i];
      assert x in r.steps;
      var j :| 0 <= j < |r.steps| && r.steps[j] == x;
    }
    if SomeCritical(r.steps, p) {
      var i :| 0 <= i < |r.steps| && r.steps[i].releaseCritical && p(r.steps[i].status);
      assert r.steps[i] in critical;
    }
  }

  /** Of the release-critical steps: a failed one makes the verdict not trusted, else an unsettled one makes it unknown. */
  lemma CriticalVerdictMeans(r: EngineResult)
    ensures ReleaseCriticalVerdict(r) == NotTrusted <==> SomeCritical(r.steps, (s: StepStatus) => s.Missing? || s.Inconsistent?)
    ensures ReleaseCriticalVerdict(r) == Trusted <==>
            forall i :: 0 <= i < |r.steps| && r.steps[i].releaseCritical ==> r.steps[i].status.Verified?
  {
    var failed := (s: StepStatus) => s.Missing? || s.Inconsistent?;
    var open := (s: StepStatus) => s.IncompleteVerification? || s.Uncertain? || s.PartiallyVerified?;
    var critical := CriticalSteps(r);
    CriticalMeans(r, failed);
    CriticalMeans(r, open);
    forall i | 0 <= i < |r.steps| && r.steps[i].releaseCritical
      ensures failed(r.steps[i].status) || open(r.steps[i].status) || r.steps[i].status.Verified?
      ensures critical != []
    {
      assert r.steps[i] in critical;
    }
    assert SomeStep(critical, failed) <==> SomeStep(critical, (s: StepStatus) => s.Missing? || s.Inconsistent?);
    assert SomeStep(critical, open) <==> SomeStep(critical, (s: StepStatus) => s.IncompleteVerification? || s.Uncertain? || s.PartiallyVerified?);
    assert SomeCritical(r.steps, failed) <==> SomeCritical(r.steps, (s: StepStatus) => s.Missing? || s.Inconsistent?);
  }

  /** A trusted run is trusted for its release-critical tools as well. */
  lemma TrustedCoversCritical(steps: seq<StepOutcome>, incoming: seq<string>)
    ensures var c := ContractCertificate(Aggregate(steps, incoming));
            TruthCheckVerdict(c) == Trusted ==> c.releaseCriticalVerdict == Trusted
  {
    StatusDecides(steps, incoming);
    var r := Aggregate(steps, incoming);
    var critical := CriticalSteps(r);
    if r.status.Complete? {
      forall i | 0 <= i < |critical| ensures critical[i].status.Verified? {
        assert critical[i] in steps;
      }
    }
  }

  /** Two capture orders that agree within each step give the same steps, hence the same status and verdict. */
  lemma CaptureOrderIrrelevant(a: seq<ToolEvent>, b: seq<ToolEvent>, s: seq<StepOutcome>, t: seq<StepOutcome>,
                               db: Backend, incoming: seq<string>)
    requires SameWithinSteps(a, b) && IsStepList(s, a, db) && IsStepList(t, b, db)
    ensures s == t && Aggregate(s, incoming) == Aggregate(t, incoming)
  {
    StepsUnique(s, t, a, b, db);
  }

  // ----- checkpoint verdicts

  function HasKey(k: Str): StepOutcome -> bool { (o: StepOutcome) => o.checkpointKey == Some(k) }

  function Group(steps: seq<StepOutcome>, k: Str): seq<StepOutcome> { Filter(HasKey(k), steps) }

  function RollupGroup(group: seq<StepOutcome>): GroupVerdict {
    if SomeStep(group, (s: StepStatus) => s.IncompleteVerification?) then GroupIncomplete
    else if SomeStep(group, Bad) then GroupInconsistent
    else if EveryStepVerified(group) then GroupVerified
    else GroupIncomplete
  }

  function SeqsOf(group: seq<StepOutcome>): (r: seq<int>)
    ensures |r| == |group|
  {
    seq(|group|, i requires 0 <= i < |group| => group[i].seqNo)
  }

  function VerdictKeys(vs: seq<CheckpointVerdict>): (r: seq<Str>)
    ensures |r| == |vs|
  {
    seq(|vs|, i requires 0 <= i < |vs| => vs[i].checkpointKey)
  }

  /** Verified iff all steps are; otherwise incomplete if some step is or none fails, and inconsistent if some step fails. */
  ghost predicate IsGroupVerdict(v: GroupVerdict, group: seq<StepOutcome>) {
    if EveryStepVerified(group) then v.GroupVerified?
    else if exists s :: s in group && s.status.IncompleteVerification? then v.GroupIncomplete?
    else if exists s :: s in group && Fails(s.status) then v.GroupInconsistent?
    else v.GroupIncomplete?
  }

  lemma RollupMeans(group: seq<StepOutcome>)
    ensures IsGroupVerdict(RollupGroup(group), group)
  {
    forall i | 0 <= i < |group| ensures group[i] in group {}
    if exists s :: s in group && s.status.IncompleteVerification? {
      var s :| s in group && s.status.IncompleteVerification?;
      var i :| 0 <= i < |group| && group[i] == s;
    }
    if exists s :: s in group && Fails(s.status) {
      var s :| s in group && Fails(s.status);
      var i :| 0 <= i < |group| && group[i] == s;
    }
  }

  /** The verdict of one checkpoint covers exactly the steps that carry its key. */
  ghost predicate IsVerdict(v: CheckpointVerdict, steps: seq<StepOutcome>) {
    var group := Group(steps, v.checkpointKey);
    && IsGroupVerdict(v.verdict, group)
    && AscendingInts(v.seqs)
    && (forall n :: n in v.seqs <==> n in SeqsOf(group))
  }

  /** Verdicts partition the keyed steps: one verdict for each key in use, by smallest sequence number. */
  ghost predicate IsVerdictList(vs: seq<CheckpointVerdict>, steps: seq<StepOutcome>) {
    && Distinct(VerdictKeys(vs))
    && (forall k :: k in VerdictKeys(vs) <==> Group(steps, k) != [])
    && (forall i :: 0 <= i < |vs| ==> IsVerdict(vs[i], steps) && vs[i].seqs != [])
    && (forall i, j :: 0 <= i < j < |vs| ==> vs[i].seqs[0] <= vs[j].seqs[0])
  }

  datatype Acc = Acc(seqs: seq<int>, outcomes: seq<StepOutcome>)

  ghost predicate GroupedByKey(byKey: map<Str, Acc>, steps: seq<StepOutcome>) {
    forall k :: Holds(byKey, Group(steps, k), k)
  }

  ghost predicate Holds(byKey: map<Str, Acc>, group: seq<StepOutcome>, k: Str) {
    if k in byKey then byKey[k].outcomes == group && byKey[k].seqs == SeqsOf(group) && byKey[k].seqs != [] else group == []
  }

  lemma HoldsMore(byKey: map<Str, Acc>, group: seq<StepOutcome>, k: Str, s: StepOutcome)
    requires Holds(byKey, group, k)
    ensures var g := if k in byKey then byKey[k] else Acc([], []);
            Holds(byKey[k := Acc(g.seqs + [s.seqNo], g.outcomes + [s])], group + [s], k)
  {
    assert SeqsOf(group + [s]) == SeqsOf(group) + [s.seqNo];
  }

  lemma GroupKeyStep(byKey: map<Str, Acc>, steps: seq<StepOutcome>, s: StepOutcome)
    requires GroupedByKey(byKey, steps)
    ensures s.checkpointKey.None? ==> GroupedByKey(byKey, steps + [s])
    ensures s.checkpointKey.Some? ==>
              var k := s.checkpointKey.value;
              var g := if k in byKey then byKey[k] else Acc([], []);
              GroupedByKey(byKey[k := Acc(g.seqs + [s.seqNo], g.outcomes + [s])], steps + [s])
  {
    forall k ensures Group(steps + [s], k) == Group(steps, k) + if HasKey(k)(s) then [s] else [] {
      FilterConcat(HasKey(k), steps, [s]);
    }
    if s.checkpointKey.Some? {
      HoldsMore(byKey, Group(steps, s.checkpointKey.value), s.checkpointKey.value, s);
    }
  }

  method GroupByKey(steps: seq<StepOutcome>) returns (byKey: map<Str, Acc>, keys: seq<Str>)
    ensures Distinct(keys) && (forall k :: k in keys <==> k in byKey) && GroupedByKey(byKey, steps)
  {
    byKey, keys := map[], [];
    for i := 0 to |steps|
      invariant Distinct(keys) && forall k :: k in keys <==> k in byKey
      invariant GroupedByKey(byKey, steps[..i])
    {
      var s := steps[i];
      GroupKeyStep(byKey, steps[..i], s);
      assert steps[..i + 1] == steps[..i] + [s];
      if s.checkpointKey.None? {
        continue;
      }
      var key := s.checkpointKey.value;
      var g := if key in byKey then byKey[key] else Acc([], []);
      if key !in byKey {
        keys := keys + [key];
      }
      byKey := byKey[key := Acc(g.seqs + [s.seqNo], g.outcomes + [s])];
    }
    assert steps[..|steps|] == steps;
  }

  function Min(s: seq<int>): (m: int)
    requires s != []
    ensures m in s && forall x :: x in s ==> m <= x
  {
    if |s| == 1 then s[0] else
    var m := Min(s[1..]);
    assert s == [s[0]] + s[1..];
    if s[0] <= m then s[0] else m
  }

  function MinSeq(byKey: map<Str, Acc>, k: Str): int {
    if k in byKey && byKey[k].seqs != [] then Min(byKey[k].seqs) else 0
  }

  function KeyBefore(byKey: map<Str, Acc>, locale: (Str, Str) -> bool): (Str, Str) -> bool {
    (a, b) => MinSeq(byKey, a) < MinSeq(byKey, b) || (MinSeq(byKey, a) == MinSeq(byKey, b) && locale(a, b))
  }

  function VerdictOf(k: Str, g: Acc): CheckpointVerdict {
    CheckpointVerdict(k, RollupGroup(g.outcomes), Sort(Dedup(g.seqs), IntLe))
  }

  lemma VerdictCovers(k: Str, byKey: map<Str, Acc>, steps: seq<StepOutcome>)
    requires GroupedByKey(byKey, steps) && k in byKey
    ensures var v := VerdictOf(k, byKey[k]); IsVerdict(v, steps) && v.seqs != [] && v.seqs[0] == MinSeq(byKey, k)
  {
    assert Holds(byKey, Group(steps, k), k);
    var g := byKey[k];
    var v := VerdictOf(k, g);
    RollupMeans(g.outcomes);
    SortKeys(Dedup(g.seqs));
    var m := Min(g.seqs);
    assert m in v.seqs;
    var first := v.seqs[0];
    assert first in v.seqs;
  }

  method VerdictsFor(sorted: seq<Str>, byKey: map<Str, Acc>) returns (vs: seq<CheckpointVerdict>)
    requires forall k :: k in sorted ==> k in byKey
    ensures VerdictKeys(vs) == sorted
    ensures forall i :: 0 <= i < |vs| ==> vs[i] == VerdictOf(sorted[i], byKey[sorted[i]])
  {
    vs := [];
    for i := 0 to |sorted|
      invariant VerdictKeys(vs) == sorted[..i]
      invariant forall j :: 0 <= j < |vs| ==> vs[j] == VerdictOf(sorted[j], byKey[sorted[j]])
    {
      var next := VerdictOf(sorted[i], byKey[sorted[i]]);
      assert VerdictKeys(vs + [next]) == VerdictKeys(vs) + [sorted[i]] == sorted[..i + 1];
      vs := vs + [next];
    }
    assert sorted[..|sorted|] == sorted;
  }

  lemma SortedByMinSeq(keys: seq<Str>, byKey: map<Str, Acc>, locale: (Str, Str) -> bool)
    requires TotalPreorder(locale) && Distinct(keys)
    ensures var sorted := Sort(keys, KeyBefore(byKey, locale));
            && Distinct(sorted) && (forall k :: k in sorted <==> k in keys)
            && forall i, j :: 0 <= i < j < |sorted| ==> KeyBefore(byKey, locale)(sorted[i], sorted[j])
  {
    var le := KeyBefore(byKey, locale);
    var sorted := Sort(keys, le);
    SortContents(keys, le);
    SortSorted(keys, le);
    SortDistinct(keys, le);
  }

  /** By smallest sequence number; the keys of verdicts that share it are in locale order. */
  ghost predicate TiesByLocale(vs: seq<CheckpointVerdict>, locale: (Str, Str) -> bool)
    requires forall i :: 0 <= i < |vs| ==> vs[i].seqs != []
  {
    forall i, j :: 0 <= i < j < |vs| && vs[i].seqs[0] == vs[j].seqs[0] ==> locale(vs[i].checkpointKey, vs[j].checkpointKey)
  }

  lemma VerdictsCover(vs: seq<CheckpointVerdict>, sorted: seq<Str>, byKey: map<Str, Acc>, steps: seq<StepOutcome>)
    requires GroupedByKey(byKey, steps) && forall k :: k in sorted ==> k in byKey
    requires |vs| == |sorted| && forall i :: 0 <= i < |vs| ==> vs[i] == VerdictOf(sorted[i], byKey[sorted[i]])
    ensures forall i :: 0 <= i < |vs| ==> IsVerdict(vs[i], steps) && vs[i].seqs != [] && vs[i].seqs[0] == MinSeq(byKey, sorted[i])
  {
    forall i | 0 <= i < |vs| ensures IsVerdict(vs[i], steps) && vs[i].seqs != [] && vs[i].seqs[0] == MinSeq(byKey, sorted[i]) {
      assert sorted[i] in sorted;
      VerdictCovers(sorted[i], byKey, steps);
    }
  }

  lemma VerdictsOrdered(vs: seq<CheckpointVerdict>, sorted: seq<Str>, byKey: map<Str, Acc>, locale: (Str, Str) -> bool)
    requires VerdictKeys(vs) == sorted
    requires forall i :: 0 <= i < |vs| ==> vs[i].seqs != [] && vs[i].seqs[0] == MinSeq(byKey, sorted[i])
    requires forall i, j :: 0 <= i < j < |sorted| ==> KeyBefore(byKey, locale)(sorted[i], sorted[j])
    ensures forall i, j :: 0 <= i < j < |vs| ==> vs[i].seqs[0] <= vs[j].seqs[0]
    ensures TiesByLocale(vs, locale)
  {
    forall i, j | 0 <= i < j < |vs| ensures vs[i].seqs[0] < vs[j].seqs[0]
                                            || (vs[i].seqs[0] == vs[j].seqs[0] && locale(vs[i].checkpointKey, vs[j].checkpointKey)) {
      assert VerdictKeys(vs)[i] == sorted[i] && VerdictKeys(vs)[j] == sorted[j];
      assert KeyBefore(byKey, locale)(sorted[i], sorted[j]);
    }
  }

  lemma VerdictsListed(vs: seq<CheckpointVerdict>, sorted: seq<Str>, byKey: map<Str, Acc>, steps: seq<StepOutcome>,
                       locale: (Str, Str) -> bool)
    requires GroupedByKey(byKey, steps) && Distinct(sorted) && forall k :: k in sorted <==> k in byKey
    requires forall i, j :: 0 <= i < j < |sorted| ==> KeyBefore(byKey, locale)(sorted[i], sorted[j])
    requires VerdictKeys(vs) == sorted && forall i :: 0 <= i < |vs| ==> vs[i] == VerdictOf(sorted[i], byKey[sorted[i]])
    ensures IsVerdictList(vs, steps) && TiesByLocale(vs, locale)
  {
    VerdictsCover(vs, sorted, byKey, steps);
    VerdictsOrdered(vs, sorted, byKey, locale);
    forall k ensures k in sorted <==> Group(steps, k) != [] {
      assert Holds(byKey, Group(steps, k), k);
    }
  }

  method ComputeCheckpointVerdicts(steps: seq<StepOutcome>, locale: (Str, Str) -> bool) returns (vs: seq<CheckpointVerdict>)
    requires TotalPreorder(locale)
    ensures IsVerdictList(vs, steps) && TiesByLocale(vs, locale)
  {
    var byKey, keys := GroupByKey(steps);
    var sorted := Sort(keys, KeyBefore(byKey, locale));
    SortedByMinSeq(keys, byKey, locale);
    vs := VerdictsFor(sorted, byKey);
    VerdictsListed(vs, sorted, byKey, steps, locale);
  }

  // ----- the LangGraph production gate

  predicate RowBPasses(c: Certificate) {
    && c.checkpointVerdicts.Some?
    && |c.checkpointVerdicts.value| > 0
    && (forall i :: 0 <= i < |c.checkpointVerdicts.value| ==> c.checkpointVerdicts.value[i].verdict.GroupVerified?)
    && c.stateRelation.MatchesExpectations?
    && c.reliance.Permitted?
    && Decide(c) == Safe
  }

  function IneligibleCertificate(): Certificate {
    Certificate(LangGraphCheckpointTrust, NotEstablished, DeriveReliance(LangGraphCheckpointTrust, NotEstablished), Trusted, None)
  }

  function CheckpointTrustCertificate(r: EngineResult, vs: seq<CheckpointVerdict>): Certificate {
    var relation := ToStateRelation(r);
    Certificate(LangGraphCheckpointTrust, relation, DeriveReliance(LangGraphCheckpointTrust, relation),
                ReleaseCriticalVerdict(r), Some(vs))
  }

  predicate Eligible(runLevelCodes: seq<string>, events: seq<ToolEvent>) {
    |runLevelCodes| == 0 && |events| > 0 && forall i :: 0 <= i < |events| ==> events[i].wire.V3?
  }

  lemma StepsKeyed(steps: seq<StepOutcome>, events: seq<ToolEvent>, db: Backend)
    requires IsStepList(steps, events, db) && Eligible([], events)
    ensures steps != [] && forall i :: 0 <= i < |steps| ==> steps[i].checkpointKey.Some?
  {
    StepsPass(steps, events, db);
    forall i | 0 <= i < |steps| ensures steps[i].checkpointKey.Some? {
      assert IsStep(steps[i], events, db);
      var obs := Observations(events, steps[i].seqNo);
      var last := obs[|obs| - 1];
      assert last in obs && last in events;
    }
  }

  /** All checkpoint verdicts are verified exactly when all steps are, if every step has a key. */
  lemma VerdictsVerified(steps: seq<StepOutcome>, vs: seq<CheckpointVerdict>)
    requires IsVerdictList(vs, steps) && steps != []
    requires forall i :: 0 <= i < |steps| ==> steps[i].checkpointKey.Some?
    ensures vs != []
    ensures (forall i :: 0 <= i < |vs| ==> vs[i].verdict.GroupVerified?) <==> EveryStepVerified(steps)
  {
    forall i | 0 <= i < |steps|
      ensures exists j :: 0 <= j < |vs| && vs[j].checkpointKey == steps[i].checkpointKey.value
                          && steps[i] in Group(steps, vs[j].checkpointKey)
    {
      var k := steps[i].checkpointKey.value;
      assert HasKey(k)(steps[i]);
      assert steps[i] in Group(steps, k);
      assert k in VerdictKeys(vs);
      var j :| 0 <= j < |vs| && VerdictKeys(vs)[j] == k;
    }
    forall j | 0 <= j < |vs|
      ensures vs[j].verdict.GroupVerified? <==> EveryStepVerified(Group(steps, vs[j].checkpointKey))
      ensures forall o :: o in Group(steps, vs[j].checkpointKey) ==> o in steps
    {
      var k := vs[j].checkpointKey;
      assert VerdictKeys(vs)[j] == k;
      assert k in VerdictKeys(vs);
      assert IsVerdict(vs[j], steps);
    }
  }

  /** For eligible input the whole production gate condition holds iff the workflow status is complete. */
  lemma GateMeansComplete(steps: seq<StepOutcome>, vs: seq<CheckpointVerdict>, events: seq<ToolEvent>, db: Backend)
    requires Eligible([], events) && IsStepList(steps, events, db) && IsVerdictList(vs, steps)
    ensures RowBPasses(CheckpointTrustCertificate(Aggregate(steps, []), vs)) <==> Aggregate(steps, []).status.Complete?
    ensures Aggregate(steps, []).status.Complete? <==> EveryStepVerified(steps)
  {
    StepsKeyed(steps, events, db);
    VerdictsVerified(steps, vs);
    StatusDecides(steps, []);
  }

  /** A captured value as the gate sees it: malformed, or an event of some workflow. */
  datatype RunEvent = ToolObserved(tool: ToolEvent) | OtherEvent
  datatype Captured = Malformed | Event(workflowId: Str, event: RunEvent)

  function IsTool(): RunEvent -> bool { (e: RunEvent) => e.ToolObserved? }

  function ToolEvents(events: seq<RunEvent>): (r: seq<ToolEvent>) {
    var tools := Filter(IsTool(), events);
    assert forall i :: 0 <= i < |tools| ==> IsTool()(tools[i]);
    seq(|tools|, i requires 0 <= i < |tools| => tools[i].tool)
  }

  /** The gate opens exactly for eligible input of which every sequence number passes. */
  ghost predicate OpensRightly(c: Certificate, runLevelCodes: seq<string>, tools: seq<ToolEvent>, db: Backend) {
    RowBPasses(c) <==> Eligible(runLevelCodes, tools) && EverySeqPasses(tools, db)
  }

  class CheckpointTrustGate {
    const workflowId: Str
    var bufferedRunEvents: seq<RunEvent>
    var runLevelReasons: seq<string>

    ghost predicate Valid() reads this {
      && ValidEvents(ToolEvents(bufferedRunEvents))
      && forall c :: c in runLevelReasons ==> c == "MALFORMED_EVENT_LINE"
    }

    constructor (workflowId: Str)
      ensures this.workflowId == workflowId && bufferedRunEvents == [] && runLevelReasons == [] && Valid()
    {
      this.workflowId := workflowId;
      bufferedRunEvents, runLevelReasons := [], [];
    }

    method AppendRunEvent(value: Captured)
      requires Valid() && (value.Event? && value.event.ToolObserved? ==> ValidEvents([value.event.tool]))
      modifies this
      ensures Valid()
      ensures runLevelReasons == old(runLevelReasons) + if value.Malformed? then ["MALFORMED_EVENT_LINE"] else []
      ensures bufferedRunEvents == old(bufferedRunEvents) +
                if value.Event? && value.workflowId == workflowId then [value.event] else []
    {
      if value.Malformed? {
        runLevelReasons := runLevelReasons + ["MALFORMED_EVENT_LINE"];
        return;
      }
      if value.workflowId != workflowId {
        return;
      }
      FilterConcat(IsTool(), bufferedRunEvents, [value.event]);
      assert ToolEvents(bufferedRunEvents + [value.event]) ==
             ToolEvents(bufferedRunEvents) + if value.event.ToolObserved? then [value.event.tool] else [];
      bufferedRunEvents := bufferedRunEvents + [value.event];
    }

    /** None is the usage error for an empty buffer. The gate opens iff the input is eligible and all steps pass. */
    method RunCheckpointTrust(db: Backend, locale: (Str, Str) -> bool) returns (r: Option<Certificate>)
      requires Valid() && TotalPreorder(locale)
      ensures r.None? <==> bufferedRunEvents == [] && runLevelReasons == []
      ensures r.Some? ==> OpensRightly(r.value, runLevelReasons, ToolEvents(bufferedRunEvents), db)
    {
      if |bufferedRunEvents| == 0 && |runLevelReasons| == 0 {
        return None;
      }
      var tools := ToolEvents(bufferedRunEvents);
      SortKeepsSteps(tools);
      var prepared := StableSortBySeq(tools);
      var steps := RunLogicalStepsVerification(prepared, db);
      PreparedSteps(steps, tools, db);
      if !Eligible(runLevelReasons, tools) {
        return Some(IneligibleCertificate());
      }
      var vs := ComputeCheckpointVerdicts(steps, locale);
      GateMeansComplete(steps, vs, tools, db);
      StepsPass(steps, tools, db);
      r := Some(CheckpointTrustCertificate(Aggregate(steps, runLevelReasons), vs));
    }
  }

  /** Steps computed from sorted events are the steps of the captured events. */
  lemma PreparedSteps(steps: seq<StepOutcome>, captured: seq<ToolEvent>, db: Backend)
    requires IsStepList(steps, StableSortBySeq(captured), db)
    ensures IsStepList(steps, captured, db)
  {
    SortKeepsSteps(captured);
    var sorted := StableSortBySeq(captured);
    forall k ensures k in SeqsOf(steps) <==> Observations(captured, k) != [] {
      assert Observations(sorted, k) == Observations(captured, k);
    }
    forall i | 0 <= i < |steps| ensures IsStep(steps[i], captured, db) {
      assert IsStep(steps[i], sorted, db);
      assert Observations(sorted, steps[i].seqNo) == Observations(captured, steps[i].seqNo);
    }
  }
}
