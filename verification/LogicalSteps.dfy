/** Logical step planning (src/planLogicalSteps.ts) and capture-order analysis (src/eventSequenceIntegrity.ts). */
module LogicalSteps {
  import opened Sorting
  import opened Utf16
  import opened Json
  import opened CanonicalParams

  datatype Option<T> = None | Some(value: T)

  datatype Checkpoint = Checkpoint(threadId: Str, checkpointNs: Str, checkpointId: Str)

  datatype Wire = V1 | V2 | V3(checkpoint: Checkpoint)

  /** A schema-valid tool_observed event; its timestamp is given as Date.parse reads it. */
  datatype ToolEvent = ToolEvent(seqNo: int, toolId: Str, params: Json, timestampMs: Option<int>, wire: Wire)

  datatype Plan = Plan(seqNo: int, observations: seq<ToolEvent>, last: ToolEvent,
                       repeatObservationCount: nat, divergent: bool)

  ghost predicate ValidEvents(events: seq<ToolEvent>) {
    forall e: ToolEvent :: e in events ==> Valid(e.params)
  }

  predicate SeqLe(a: ToolEvent, b: ToolEvent) { a.seqNo <= b.seqNo }

  function StableSortBySeq(events: seq<ToolEvent>): seq<ToolEvent> {
    Sort(events, SeqLe)
  }

  predicate Match(a: ToolEvent, b: ToolEvent)
    requires Valid(a.params) && Valid(b.params)
  {
    a.toolId == b.toolId && Print(a.params) == Print(b.params)
  }

  // ----- what a plan list is

  function AtStep(k: int): ToolEvent -> bool { (e: ToolEvent) => e.seqNo == k }

  function Observations(events: seq<ToolEvent>, k: int): seq<ToolEvent> {
    Filter(AtStep(k), events)
  }

  /** Same tool and same parameters, as a reader of the JSON text can tell them apart. */
  ghost predicate Agrees(a: ToolEvent, b: ToolEvent) {
    a.toolId == b.toolId && Same(Written(a.params), Written(b.params))
  }

  ghost predicate IsPlan(p: Plan, events: seq<ToolEvent>) {
    && p.observations == Observations(events, p.seqNo)
    && p.observations != []
    && p.last == p.observations[|p.observations| - 1]
    && p.repeatObservationCount == |p.observations|
    && (p.divergent <==> exists o :: o in p.observations && !Agrees(o, p.last))
  }

  function SeqNos(plans: seq<Plan>): (r: seq<int>)
    ensures |r| == |plans|
  {
    seq(|plans|, i requires 0 <= i < |plans| => plans[i].seqNo)
  }

  ghost predicate AscendingInts(s: seq<int>) {
    forall i, j :: 0 <= i < j < |s| ==> s[i] < s[j]
  }

  /** One plan for each sequence number that occurs, in ascending order. */
  ghost predicate IsPlanList(plans: seq<Plan>, events: seq<ToolEvent>) {
    && AscendingInts(SeqNos(plans))
    && (forall k :: k in SeqNos(plans) <==> Observations(events, k) != [])
    && (forall i :: 0 <= i < |plans| ==> IsPlan(plans[i], events))
  }

  lemma MatchAgrees(a: ToolEvent, b: ToolEvent)
    requires Valid(a.params) && Valid(b.params)
    ensures Match(a, b) <==> Agrees(a, b)
  {
    PrintInjective(a.params, b.params);
  }

  lemma AgreesWithItself(a: ToolEvent)
    requires Valid(a.params)
    ensures Agrees(a, a)
  {
    MatchAgrees(a, a);
  }

  lemma SortKeepsSteps(events: seq<ToolEvent>)
    ensures forall k :: Observations(StableSortBySeq(events), k) == Observations(events, k)
    ensures forall e :: e in StableSortBySeq(events) <==> e in events
  {
    forall k ensures Observations(StableSortBySeq(events), k) == Observations(events, k) {
      SortStable(events, SeqLe, AtStep(k));
    }
    SortContents(events, SeqLe);
  }

  // ----- planning

  /** The divergence loop of one logical step. */
  method IsDivergent(observations: seq<ToolEvent>) returns (divergent: bool)
    requires observations != [] && ValidEvents(observations)
    ensures divergent <==> exists o :: o in observations && !Agrees(o, observations[|observations| - 1])
  {
    var last := observations[|observations| - 1];
    divergent := false;
    if |observations| >= 2 {
      var i := 0;
      while i < |observations| - 1
        invariant 0 <= i <= |observations| - 1
        invariant !divergent && forall j :: 0 <= j < i ==> Agrees(observations[j], last)
      {
        MatchAgrees(observations[i], last);
        if !Match(observations[i], last) {
          divergent := true;
          break;
        }
        i := i + 1;
      }
    }
    AgreesWithItself(last);
  }

  ghost predicate Grouped(bySeq: map<int, seq<ToolEvent>>, events: seq<ToolEvent>) {
    forall k :: if k in bySeq then bySeq[k] == Observations(events, k) && bySeq[k] != [] else Observations(events, k) == []
  }

  lemma GroupStep(bySeq: map<int, seq<ToolEvent>>, events: seq<ToolEvent>, ev: ToolEvent)
    requires Grouped(bySeq, events)
    ensures var list := if ev.seqNo in bySeq then bySeq[ev.seqNo] else [];
            Grouped(bySeq[ev.seqNo := list + [ev]], events + [ev])
  {
    forall k ensures Observations(events + [ev], k) == Observations(events, k) + if ev.seqNo == k then [ev] else [] {
      FilterConcat(AtStep(k), events, [ev]);
    }
  }

  /** Groups by sequence number, remembering the order in which the Map got its keys. */
  method GroupBySeq(sorted: seq<ToolEvent>) returns (bySeq: map<int, seq<ToolEvent>>, keys: seq<int>)
    ensures Distinct(keys) && (forall k :: k in keys <==> k in bySeq)
    ensures Grouped(bySeq, sorted)
  {
    bySeq, keys := map[], [];
    for i := 0 to |sorted|
      invariant Distinct(keys) && forall k :: k in keys <==> k in bySeq
      invariant Grouped(bySeq, sorted[..i])
    {
      var ev := sorted[i];
      GroupStep(bySeq, sorted[..i], ev);
      assert sorted[..i + 1] == sorted[..i] + [ev];
      if ev.seqNo in bySeq {
        bySeq := bySeq[ev.seqNo := bySeq[ev.seqNo] + [ev]];
      } else {
        assert [] + [ev] == [ev];
        bySeq, keys := bySeq[ev.seqNo := [ev]], keys + [ev.seqNo];
      }
    }
    assert sorted[..|sorted|] == sorted;
  }

  predicate IntLe(a: int, b: int) { a <= b }

  lemma SortKeys(keys: seq<int>)
    requires Distinct(keys)
    ensures AscendingInts(Sort(keys, IntLe)) && forall k :: k in Sort(keys, IntLe) <==> k in keys
  {
    var s := Sort(keys, IntLe);
    SortContents(keys, IntLe);
    SortSorted(keys, IntLe);
    SortDistinct(keys, IntLe);
    forall i, j | 0 <= i < j < |s| ensures s[i] < s[j] {
      assert IntLe(s[i], s[j]) && s[i] != s[j];
    }
  }

  lemma ObservationsValid(events: seq<ToolEvent>, k: int)
    requires ValidEvents(events)
    ensures ValidEvents(Observations(events, k))
  {
  }

  /** The planning loop over the sorted keys. */
  method PlansFor(seqs: seq<int>, bySeq: map<int, seq<ToolEvent>>, ghost events: seq<ToolEvent>) returns (out: seq<Plan>)
    requires ValidEvents(events) && Grouped(bySeq, events)
    requires forall i :: 0 <= i < |seqs| ==> seqs[i] in bySeq
    ensures SeqNos(out) == seqs
    ensures forall i :: 0 <= i < |out| ==> IsPlan(out[i], events)
  {
    out := [];
    for i := 0 to |seqs|
      invariant SeqNos(out) == seqs[..i]
      invariant forall j :: 0 <= j < |out| ==> IsPlan(out[j], events)
    {
      var observations := bySeq[seqs[i]];
      ObservationsValid(events, seqs[i]);
      var last := observations[|observations| - 1];
      var divergent := IsDivergent(observations);
      var plan := Plan(seqs[i], observations, last, |observations|, divergent);
      assert SeqNos(out + [plan]) == SeqNos(out) + [seqs[i]] == seqs[..i + 1];
      out := out + [plan];
    }
    assert seqs[..|seqs|] == seqs;
  }

  method PlanLogicalSteps(events: seq<ToolEvent>) returns (out: seq<Plan>)
    requires ValidEvents(events)
    ensures IsPlanList(out, events)
  {
    var sorted := StableSortBySeq(events);
    SortKeepsSteps(events);
    var bySeq, keys := GroupBySeq(sorted);
    assert Grouped(bySeq, events) by {
      forall k ensures Observations(sorted, k) == Observations(events, k) {}
    }
    var seqs := Sort(keys, IntLe);
    SortKeys(keys);
    forall i | 0 <= i < |seqs| ensures seqs[i] in bySeq {
      var k := seqs[i];
      assert k in seqs;
    }
    out := PlansFor(seqs, bySeq, events);
    forall k ensures k in SeqNos(out) <==> Observations(events, k) != [] {
      assert k in seqs <==> k in keys;
      assert k in keys <==> k in bySeq;
    }
  }

  // ----- capture order does not matter beyond the order within each step

  /** b is a capture order of the events of a that keeps the order within each sequence number. */
  ghost predicate SameWithinSteps(a: seq<ToolEvent>, b: seq<ToolEvent>) {
    forall k :: Observations(a, k) == Observations(b, k)
  }

  lemma HasElement(s: seq<int>)
    ensures s != [] ==> exists k :: k in s
  {
    if s != [] {
      var k := s[0];
      assert k in s;
    }
  }

  lemma {:induction false} AscendingIntsUnique(a: seq<int>, b: seq<int>)
    requires AscendingInts(a) && AscendingInts(b) && forall k :: k in a <==> k in b
    ensures a == b
  {
    if a == [] || b == [] {
      HasElement(a);
      HasElement(b);
    } else {
      assert a[0] in b && b[0] in a;
      assert a[0] == b[0];
      forall k ensures k in a[1..] <==> k in b[1..] {
        assert k in a[1..] <==> k in a && k != a[0] by { assert a == [a[0]] + a[1..]; }
        assert k in b[1..] <==> k in b && k != b[0] by { assert b == [b[0]] + b[1..]; }
      }
      AscendingIntsUnique(a[1..], b[1..]);
      assert a == [a[0]] + a[1..] && b == [b[0]] + b[1..];
    }
  }

  lemma PlanUnique(p: Plan, q: Plan, a: seq<ToolEvent>, b: seq<ToolEvent>)
    requires IsPlan(p, a) && IsPlan(q, b) && p.seqNo == q.seqNo && Observations(a, p.seqNo) == Observations(b, p.seqNo)
    ensures p == q
  {
  }

  /** Capture order beyond the order within each step has no influence on the plans. */
  lemma PlansInvariant(p: seq<Plan>, q: seq<Plan>, a: seq<ToolEvent>, b: seq<ToolEvent>)
    requires IsPlanList(p, a) && IsPlanList(q, b) && SameWithinSteps(a, b)
    ensures p == q
  {
    forall k ensures k in SeqNos(p) <==> k in SeqNos(q) {
      assert Observations(a, k) == Observations(b, k);
    }
    AscendingIntsUnique(SeqNos(p), SeqNos(q));
    assert |p| == |SeqNos(p)| == |SeqNos(q)| == |q|;
    forall i | 0 <= i < |p| ensures p[i] == q[i] {
      assert SeqNos(p)[i] == SeqNos(q)[i];
      PlanUnique(p[i], q[i], a, b);
    }
  }

  /** Loading sorts once before planning sorts again; the plans are those of the captured events. */
  lemma PreparedPlans(p: seq<Plan>, q: seq<Plan>, captured: seq<ToolEvent>)
    requires IsPlanList(p, captured) && IsPlanList(q, StableSortBySeq(captured))
    ensures p == q
  {
    SortKeepsSteps(captured);
    PlansInvariant(p, q, captured, StableSortBySeq(captured));
  }

  // ----- capture-order analysis

  datatype IntegrityReason = CaptureOrderNotMonotonic | TimestampNotMonotonic(seqBefore: int, seqAfter: int)

  datatype Integrity = Normal | Irregular(reasons: seq<IntegrityReason>)

  ghost predicate CaptureMonotonic(events: seq<ToolEvent>) {
    forall i, j :: 0 <= i < j < |events| ==> events[i].seqNo <= events[j].seqNo
  }

  ghost predicate TimeFalls(sorted: seq<ToolEvent>, i: int)
    requires 0 <= i < |sorted| - 1
  {
    var a, b := sorted[i].timestampMs, sorted[i + 1].timestampMs;
    a.Some? && b.Some? && a.value > b.value
  }

  ghost predicate IsFirstFall(sorted: seq<ToolEvent>, r: IntegrityReason) {
    exists i :: 0 <= i < |sorted| - 1 && TimeFalls(sorted, i)
                && (forall j :: 0 <= j < i ==> !TimeFalls(sorted, j))
                && r == TimestampNotMonotonic(sorted[i].seqNo, sorted[i + 1].seqNo)
  }

  /** Which reasons the analysis reports: the capture-order one first, then the first falling timestamp. */
  ghost predicate Describes(reasons: seq<IntegrityReason>, events: seq<ToolEvent>) {
    var sorted := StableSortBySeq(events);
    var order := if CaptureMonotonic(events) then [] else [CaptureOrderNotMonotonic];
    if forall i :: 0 <= i < |sorted| - 1 ==> !TimeFalls(sorted, i) then reasons == order
    else |reasons| > 0 && reasons[..|reasons| - 1] == order && IsFirstFall(sorted, reasons[|reasons| - 1])
  }

  method CaptureIsIrregular(captureOrder: seq<ToolEvent>) returns (irregular: bool)
    ensures irregular <==> !CaptureMonotonic(captureOrder)
  {
    var maxSeqSeen: Option<int> := None;
    irregular := false;
    for i := 0 to |captureOrder|
      invariant maxSeqSeen.None? <==> i == 0
      invariant maxSeqSeen.Some? ==> (forall j :: 0 <= j < i ==> captureOrder[j].seqNo <= maxSeqSeen.value)
                                     && exists j :: 0 <= j < i && captureOrder[j].seqNo == maxSeqSeen.value
      invariant irregular <==> !CaptureMonotonic(captureOrder[..i])
    {
      var ev := captureOrder[i];
      ghost var before, after := captureOrder[..i], captureOrder[..i + 1];
      assert after == before + [ev];
      assert CaptureMonotonic(after) <==>
             CaptureMonotonic(before) && forall j :: 0 <= j < i ==> captureOrder[j].seqNo <= ev.seqNo by {
        assert forall j :: 0 <= j < i ==> after[j] == before[j] == captureOrder[j];
      }
      if maxSeqSeen.Some? && ev.seqNo < maxSeqSeen.value {
        irregular := true;
      }
      maxSeqSeen := Some(if maxSeqSeen.Some? && maxSeqSeen.value > ev.seqNo then maxSeqSeen.value else ev.seqNo);
    }
    assert captureOrder[..|captureOrder|] == captureOrder;
  }

  /** The adjacent-pair loop: stops at the first pair whose timestamps fall. */
  method FirstTimeFall(sorted: seq<ToolEvent>) returns (r: Option<IntegrityReason>)
    ensures r.None? <==> forall i :: 0 <= i < |sorted| - 1 ==> !TimeFalls(sorted, i)
    ensures r.Some? ==> IsFirstFall(sorted, r.value)
  {
    var i := 0;
    while i < |sorted| - 1
      invariant 0 <= i && (i <= |sorted| - 1 || |sorted| == 0)
      invariant forall j :: 0 <= j < i && j < |sorted| - 1 ==> !TimeFalls(sorted, j)
    {
      var a, b := sorted[i], sorted[i + 1];
      if a.timestampMs.Some? && b.timestampMs.Some? && a.timestampMs.value > b.timestampMs.value {
        assert TimeFalls(sorted, i);
        return Some(TimestampNotMonotonic(a.seqNo, b.seqNo));
      }
      i := i + 1;
    }
    return None;
  }

  method AnalyzeEventSequenceIntegrity(captureOrder: seq<ToolEvent>) returns (r: Integrity)
    ensures r.Normal? ==> Describes([], captureOrder)
    ensures r.Irregular? ==> r.reasons != [] && Describes(r.reasons, captureOrder)
  {
    SortContents(captureOrder, SeqLe);
    if |captureOrder| == 0 {
      return Normal;
    }
    var reasons: seq<IntegrityReason> := [];
    var captureIrregular := CaptureIsIrregular(captureOrder);
    if captureIrregular {
      reasons := [CaptureOrderNotMonotonic];
    }
    var fall := FirstTimeFall(StableSortBySeq(captureOrder));
    if fall.Some? {
      reasons := reasons + [fall.value];
    }
    if |reasons| == 0 {
      return Normal;
    }
    return Irregular(reasons);
  }

  /** Without a capture-order reason the events are already in order and sorting leaves them alone. */
  lemma NoReasonNoSort(events: seq<ToolEvent>, reasons: seq<IntegrityReason>)
    requires Describes(reasons, events)
    ensures CaptureOrderNotMonotonic !in reasons ==> StableSortBySeq(events) == events
    ensures CaptureOrderNotMonotonic in reasons <==> !CaptureMonotonic(events)
  {
    if CaptureMonotonic(events) {
      SortIdentity(events, SeqLe);
    } else {
      assert reasons[0] == CaptureOrderNotMonotonic by {
        assert reasons == [CaptureOrderNotMonotonic] || reasons[..|reasons| - 1][0] == reasons[0];
      }
    }
  }
}
