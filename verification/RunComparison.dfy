/** Comparison of two runs: multiset differences, key maps, the two buckets (src/runComparison.ts). */
module RunComparison {
  import opened Sorting
  import opened Utf16
  import opened LogicalSteps
  import Verdicts

  type Status = Verdicts.StepStatus

  datatype EffectRow = EffectRow(id: Str, status: Status, codes: seq<Str>)

  /** key is the logical step key, absent without a verification request; effects is [] where the step has none. */
  datatype Step = Step(seqNo: int, toolId: Str, status: Status, codes: seq<Str>, key: Option<Str>, effects: seq<EffectRow>)

  predicate IsFailing(s: Status) { !s.Verified? }

  // ----- multisets as Maps from code to count

  type Counts = map<Str, nat>

  function CountOf(m: Counts, k: Str): nat { if k in m then m[k] else 0 }

  /** m counts s; a Map holds no zero counts. */
  ghost predicate IsCount(m: Counts, s: multiset<Str>) {
    (forall k :: CountOf(m, k) == s[k]) && forall k :: k in m ==> m[k] > 0
  }

  method MultisetFromCodes(codes: seq<Str>) returns (m: Counts)
    ensures IsCount(m, multiset(codes))
  {
    m := map[];
    for i := 0 to |codes|
      invariant IsCount(m, multiset(codes[..i]))
    {
      assert codes[..i + 1] == codes[..i] + [codes[i]];
      m := m[codes[i] := CountOf(m, codes[i]) + 1];
    }
    assert codes[..|codes|] == codes;
  }

  method MultisetSubtract(a: Counts, b: Counts) returns (out: Counts)
    ensures forall k :: CountOf(out, k) == if CountOf(a, k) > CountOf(b, k) then CountOf(a, k) - CountOf(b, k) else 0
    ensures forall k :: k in out ==> out[k] > 0
  {
    out := map[];
    var rest := a.Keys;
    while rest != {}
      invariant rest <= a.Keys && out.Keys <= a.Keys - rest
      invariant forall k :: k in out ==> out[k] > 0
      invariant forall k :: k !in rest ==>
                  CountOf(out, k) == if CountOf(a, k) > CountOf(b, k) then CountOf(a, k) - CountOf(b, k) else 0
      decreases rest
    {
      var k :| k in rest;
      var d := a[k] - CountOf(b, k);
      if d > 0 {
        out := out[k := d];
      }
      rest := rest - {k};
    }
  }

  function Repeat(k: Str, n: nat): (r: seq<Str>)
    ensures |r| == n
  {
    seq(n, _ => k)
  }

  /** Every key as often as it is counted, keys ascending. */
  method MultisetToCodes(m: Counts) returns (out: seq<Str>)
    ensures Sorted(out, Le)
    ensures forall k :: multiset(out)[k] == CountOf(m, k)
  {
    var keys := SortedKeys(m.Keys);
    out := [];
    for i := 0 to |keys|
      invariant Spelled(out, m, keys[..i])
    {
      assert keys[i] in Elements(keys);
      SpellNext(out, m, keys, i);
      out := out + Repeat(keys[i], m[keys[i]]);
    }
    assert keys[..|keys|] == keys;
    forall k ensures multiset(out)[k] == CountOf(m, k) {
      assert k in keys <==> k in Elements(keys);
    }
  }

  /** The codes for the first keys are written out. */
  ghost predicate Spelled(out: seq<Str>, m: Counts, keys: seq<Str>) {
    && Sorted(out, Le)
    && (forall x :: x in out ==> x in keys)
    && (forall k :: multiset(out)[k] == if k in keys then CountOf(m, k) else 0)
  }

  lemma SpellNext(out: seq<Str>, m: Counts, keys: seq<Str>, i: nat)
    requires i < |keys| && Ascending(keys) && Spelled(out, m, keys[..i]) && keys[i] in m
    ensures Spelled(out + Repeat(keys[i], m[keys[i]]), m, keys[..i + 1])
  {
    var k := keys[i];
    assert k !in keys[..i];
    assert keys[..i + 1] == keys[..i] + [k];
    AppendRepeat(out, k, m[k], keys, i);
  }

  lemma {:induction false} RepeatContents(k: Str, n: nat)
    ensures forall x :: multiset(Repeat(k, n))[x] == if x == k then n else 0
  {
    if n > 0 {
      RepeatContents(k, n - 1);
      assert Repeat(k, n) == [k] + Repeat(k, n - 1);
    }
  }

  lemma AppendRepeat(out: seq<Str>, k: Str, n: nat, keys: seq<Str>, i: nat)
    requires i < |keys| && Ascending(keys) && keys[i] == k
    requires Sorted(out, Le) && forall x :: x in out ==> x in keys[..i]
    ensures Sorted(out + Repeat(k, n), Le)
    ensures forall x :: multiset(out + Repeat(k, n))[x] == multiset(out)[x] + if x == k then n else 0
    ensures forall x :: x in out + Repeat(k, n) ==> x in keys[..i] || x == k
  {
    LeOrder();
    RepeatContents(k, n);
    var r := out + Repeat(k, n);
    forall p, q | 0 <= p < q < |r| ensures Le(r[p], r[q]) {
      if p < |out| && q >= |out| {
        assert out[p] in out;
        assert out[p] in keys[..i];
        var j :| 0 <= j < i && keys[j] == out[p];
        assert Less(keys[j], keys[i]);
      }
    }
  }

  /** The codes of b taken out of a, each once for every occurrence in b. */
  function RemoveOne(a: seq<Str>, x: Str): seq<Str> {
    if a == [] then [] else if a[0] == x then a[1..] else [a[0]] + RemoveOne(a[1..], x)
  }

  function Remove(a: seq<Str>, b: seq<Str>): seq<Str>
    decreases |b|
  {
    if b == [] then a else Remove(RemoveOne(a, b[0]), b[1..])
  }

  /** The multiset difference as the report lists it. */
  function Difference(a: seq<Str>, b: seq<Str>): seq<Str> { Sort(Remove(a, b), Le) }

  lemma {:induction false} RemoveOneContents(a: seq<Str>, x: Str)
    ensures multiset(RemoveOne(a, x)) == multiset(a) - multiset{x}
  {
    if a != [] {
      assert a == [a[0]] + a[1..];
      if a[0] != x { RemoveOneContents(a[1..], x); }
    }
  }

  lemma {:induction false} RemoveContents(a: seq<Str>, b: seq<Str>)
    ensures multiset(Remove(a, b)) == multiset(a) - multiset(b)
    decreases |b|
  {
    if b != [] {
      assert b == [b[0]] + b[1..];
      RemoveOneContents(a, b[0]);
      RemoveContents(RemoveOne(a, b[0]), b[1..]);
    }
  }

  lemma DifferenceContents(a: seq<Str>, b: seq<Str>)
    ensures multiset(Difference(a, b)) == multiset(a) - multiset(b) && Sorted(Difference(a, b), Le)
  {
    LeOrder();
    RemoveContents(a, b);
    SortContents(Remove(a, b), Le);
    SortSorted(Remove(a, b), Le);
  }

  lemma SortedContents(s: seq<Str>, t: seq<Str>)
    requires Sorted(s, Le) && Sorted(t, Le) && multiset(s) == multiset(t)
    ensures s == t
  {
    LeOrder();
    SortedUnique(s, t, Le);
  }

  /** multisetToCodes(multisetSubtract(multisetFromCodes(a), multisetFromCodes(b))). */
  method Subtracted(a: seq<Str>, b: seq<Str>) returns (r: seq<Str>)
    ensures r == Difference(a, b)
  {
    var ma := MultisetFromCodes(a);
    var mb := MultisetFromCodes(b);
    var d := MultisetSubtract(ma, mb);
    r := MultisetToCodes(d);
    DifferenceContents(a, b);
    assert multiset(r) == multiset(a) - multiset(b) by {
      forall k ensures multiset(r)[k] == (multiset(a) - multiset(b))[k] {
        assert CountOf(ma, k) == multiset(a)[k] && CountOf(mb, k) == multiset(b)[k];
      }
    }
    SortedContents(r, Difference(a, b));
  }

  /** Conservation: what is there now is what was there, less the resolved and plus the introduced, which are disjoint. */
  lemma Conservation(prior: seq<Str>, current: seq<Str>)
    ensures var introduced, resolved := multiset(Difference(current, prior)), multiset(Difference(prior, current));
            && resolved <= multiset(prior)
            && multiset(current) == multiset(prior) - resolved + introduced
            && introduced !! resolved
  {
    DifferenceContents(current, prior);
    DifferenceContents(prior, current);
  }

  // ----- the key map

  function AtKey(k: Str): Step -> bool { (s: Step) => s.key == Some(k) }

  function StepsAt(steps: seq<Step>, k: Str): seq<Step> { Filter(AtKey(k), steps) }

  function SeqsOf(steps: seq<Step>): (r: seq<int>)
    ensures |r| == |steps|
  {
    seq(|steps|, i requires 0 <= i < |steps| => steps[i].seqNo)
  }

  /** The step with the smallest sequence number, the first of them if there are several. */
  function Kept(steps: seq<Step>): (r: Step)
    requires steps != []
    ensures r in steps && forall s :: s in steps ==> r.seqNo <= s.seqNo
  {
    var last := steps[|steps| - 1];
    assert steps == steps[..|steps| - 1] + [last];
    if |steps| == 1 then last else
    var r := Kept(steps[..|steps| - 1]);
    if last.seqNo < r.seqNo then last else r
  }

  datatype Ambiguity = Ambiguity(key: Str, chosenSeq: int, droppedSeq: int)

  function Better(s: Step, before: Step): Step { if s.seqNo < before.seqNo then s else before }
  function Worse(s: Step, before: Step): Step { if s.seqNo < before.seqNo then before else s }

  function ForKey(k: Str): Ambiguity -> bool { (a: Ambiguity) => a.key == k }

  /** The resolutions of the steps of one key, in order: each later step contends with the one kept so far. */
  function AmbiguitiesOf(k: Str, at: seq<Step>): seq<Ambiguity> {
    if |at| < 2 then []
    else
      var last, before := at[|at| - 1], Kept(at[..|at| - 1]);
      AmbiguitiesOf(k, at[..|at| - 1]) + [Ambiguity(k, Better(last, before).seqNo, Worse(last, before).seqNo)]
  }

  /** Exactness for one key: the kept step is the least of its steps, and the resolutions are those of its steps. */
  ghost predicate KeyExact(m: map<Str, Step>, ambiguous: seq<Ambiguity>, steps: seq<Step>, k: Str) {
    var at := StepsAt(steps, k);
    && (k in m <==> at != [])
    && (k in m ==> m[k] == Kept(at))
    && Filter(ForKey(k), ambiguous) == AmbiguitiesOf(k, at)
  }

  ghost predicate IsKeyMap(m: map<Str, Step>, ambiguous: seq<Ambiguity>, steps: seq<Step>) {
    forall k :: KeyExact(m, ambiguous, steps, k)
  }

  lemma StepAt(steps: seq<Step>, s: Step, k: Str)
    ensures StepsAt(steps + [s], k) == if s.key == Some(k) then StepsAt(steps, k) + [s] else StepsAt(steps, k)
  {
    FilterConcat(AtKey(k), steps, [s]);
  }

  lemma KeyMapSkips(m: map<Str, Step>, ambiguous: seq<Ambiguity>, steps: seq<Step>, s: Step)
    requires IsKeyMap(m, ambiguous, steps) && s.key.None?
    ensures IsKeyMap(m, ambiguous, steps + [s])
  {
    forall k ensures KeyExact(m, ambiguous, steps + [s], k) {
      assert KeyExact(m, ambiguous, steps, k);
      StepAt(steps, s, k);
    }
  }

  lemma KeyMapAdds(m: map<Str, Step>, ambiguous: seq<Ambiguity>, steps: seq<Step>, s: Step, key: Str)
    requires IsKeyMap(m, ambiguous, steps) && s.key == Some(key) && key !in m
    ensures IsKeyMap(m[key := s], ambiguous, steps + [s])
  {
    var more, all := m[key := s], steps + [s];
    forall k ensures KeyExact(more, ambiguous, all, k) {
      assert KeyExact(m, ambiguous, steps, k);
      StepAt(steps, s, k);
      if k == key {
        assert StepsAt(steps + [s], k) == [s];
      }
    }
  }

  lemma KeptOne(at: seq<Step>, s: Step, k: Str)
    requires at != []
    ensures var kept, lost := Better(s, Kept(at)), Worse(s, Kept(at));
            && Kept(at + [s]) == kept
            && AmbiguitiesOf(k, at + [s]) == AmbiguitiesOf(k, at) + [Ambiguity(k, kept.seqNo, lost.seqNo)]
  {
    assert (at + [s])[..|at + [s]| - 1] == at;
  }

  function DroppedSeqs(ambiguous: seq<Ambiguity>): seq<int> { Map((a: Ambiguity) => a.droppedSeq, ambiguous) }

  lemma DroppedOne(ambiguous: seq<Ambiguity>, a: Ambiguity)
    ensures multiset(DroppedSeqs(ambiguous + [a])) == multiset(DroppedSeqs(ambiguous)) + multiset{a.droppedSeq}
  {
    assert DroppedSeqs(ambiguous + [a]) == DroppedSeqs(ambiguous) + [a.droppedSeq];
  }

  lemma SeqsOne(at: seq<Step>, s: Step)
    ensures SeqsOf(at + [s]) == SeqsOf(at) + [s.seqNo]
  {
  }

  lemma KeptSeq(at: seq<Step>)
    requires at != []
    ensures Kept(at).seqNo in SeqsOf(at)
  {
    var r := Kept(at);
    var i :| 0 <= i < |at| && at[i] == r;
    assert SeqsOf(at)[i] == r.seqNo;
  }

  ghost predicate Resolves(a: Ambiguity, k: Str, seqs: seq<int>) {
    a.key == k && a.chosenSeq <= a.droppedSeq && a.chosenSeq in seqs && a.droppedSeq in seqs
  }

  ghost predicate AllResolve(ambiguous: seq<Ambiguity>, k: Str, seqs: seq<int>) {
    forall i :: 0 <= i < |ambiguous| ==> Resolves(ambiguous[i], k, seqs)
  }

  lemma ResolvesMore(ambiguous: seq<Ambiguity>, a: Ambiguity, k: Str, seqs: seq<int>, x: int)
    requires AllResolve(ambiguous, k, seqs) && Resolves(a, k, seqs + [x])
    ensures AllResolve(ambiguous + [a], k, seqs + [x])
  {
  }

  /** Every step of a key but the kept one is dropped once, in favour of a step of the key that is not later. */
  lemma {:induction false} AmbiguitiesMean(k: Str, at: seq<Step>)
    requires at != []
    ensures multiset(DroppedSeqs(AmbiguitiesOf(k, at))) + multiset{Kept(at).seqNo} == multiset(SeqsOf(at))
    ensures AllResolve(AmbiguitiesOf(k, at), k, SeqsOf(at))
  {
    if |at| == 1 {
      assert SeqsOf(at) == [at[0].seqNo] && Kept(at) == at[0];
    } else {
      var rest, last := at[..|at| - 1], at[|at| - 1];
      assert at == rest + [last];
      AmbiguitiesMean(k, rest);
      AmbiguitiesStep(k, rest, last);
    }
  }

  lemma AmbiguitiesStep(k: Str, rest: seq<Step>, last: Step)
    requires rest != []
    requires multiset(DroppedSeqs(AmbiguitiesOf(k, rest))) + multiset{Kept(rest).seqNo} == multiset(SeqsOf(rest))
    requires AllResolve(AmbiguitiesOf(k, rest), k, SeqsOf(rest))
    ensures multiset(DroppedSeqs(AmbiguitiesOf(k, rest + [last]))) + multiset{Kept(rest + [last]).seqNo}
            == multiset(SeqsOf(rest + [last]))
    ensures AllResolve(AmbiguitiesOf(k, rest + [last]), k, SeqsOf(rest + [last]))
  {
    var a := Ambiguity(k, Better(last, Kept(rest)).seqNo, Worse(last, Kept(rest)).seqNo);
    KeptOne(rest, last, k);
    SeqsOne(rest, last);
    KeptSeq(rest);
    DroppedOne(AmbiguitiesOf(k, rest), a);
    ResolvesMore(AmbiguitiesOf(k, rest), a, k, SeqsOf(rest), last.seqNo);
  }

  lemma KeyMapResolves(m: map<Str, Step>, ambiguous: seq<Ambiguity>, steps: seq<Step>, s: Step, key: Str)
    requires IsKeyMap(m, ambiguous, steps) && s.key == Some(key) && key in m
    ensures var kept, lost := Better(s, m[key]), Worse(s, m[key]);
            IsKeyMap(m[key := kept], ambiguous + [Ambiguity(key, kept.seqNo, lost.seqNo)], steps + [s])
  {
    var kept, lost := Better(s, m[key]), Worse(s, m[key]);
    var a := Ambiguity(key, kept.seqNo, lost.seqNo);
    var next, more, all := m[key := kept], ambiguous + [a], steps + [s];
    forall k ensures KeyExact(next, more, all, k) {
      assert KeyExact(m, ambiguous, steps, k);
      StepAt(steps, s, k);
      FilterConcat(ForKey(k), ambiguous, [a]);
      if k == key {
        KeptOne(StepsAt(steps, k), s, k);
      }
    }
  }

  method BuildLogicalStepKeyMap(steps: seq<Step>) returns (m: map<Str, Step>, ambiguous: seq<Ambiguity>)
    ensures IsKeyMap(m, ambiguous, steps)
  {
    m, ambiguous := map[], [];
    assert forall k :: KeyExact(m, ambiguous, steps[..0], k);
    for i := 0 to |steps|
      invariant IsKeyMap(m, ambiguous, steps[..i])
    {
      var step := steps[i];
      assert steps[..i + 1] == steps[..i] + [step];
      if step.key.None? {
        KeyMapSkips(m, ambiguous, steps[..i], step);
        continue;
      }
      var key := step.key.value;
      if key !in m {
        KeyMapAdds(m, ambiguous, steps[..i], step, key);
        m := m[key := step];
        continue;
      }
      KeyMapResolves(m, ambiguous, steps[..i], step, key);
      var existing := m[key];
      assert m[key := existing] == m;
      if step.seqNo < existing.seqNo {
        ambiguous := ambiguous + [Ambiguity(key, step.seqNo, existing.seqNo)];
        m := m[key := step];
      } else {
        ambiguous := ambiguous + [Ambiguity(key, existing.seqNo, step.seqNo)];
      }
    }
    assert steps[..|steps|] == steps;
  }

  // ----- bucket A

  datatype Change = IntroducedFailure | ResolvedFailure | UnchangedOk | BothFailing

  datatype EffectDelta = EffectDelta(effectId: Str, kind: Change, introduced: seq<Str>, resolved: seq<Str>,
                                     statusPrior: Option<Status>, statusCurrent: Option<Status>)

  datatype Entry =
    | StructuralRemoval(key: Str, seqPrior: int, toolIdPrior: Str, priorWasFailing: bool)
    | StructuralAddition(key: Str, seqCurrent: int, toolIdCurrent: Str, currentIsFailing: bool)
    | Present(key: Str, kind: Change, seqPrior: int, seqCurrent: int, toolIdPrior: Str, toolIdCurrent: Str)
    | StillFailing(key: Str, seqPrior: int, seqCurrent: int, toolIdPrior: Str, toolIdCurrent: Str, toolIdChanged: bool,
                   introducedCodes: seq<Str>, resolvedCodes: seq<Str>, effects: seq<EffectDelta>)

  function LastById(effects: seq<EffectRow>, id: Str): Option<EffectRow> {
    if effects == [] then None
    else if effects[|effects| - 1].id == id then Some(effects[|effects| - 1])
    else LastById(effects[..|effects| - 1], id)
  }

  function ChangeOf(prior: Status, current: Status): Change {
    if IsFailing(prior) then (if IsFailing(current) then BothFailing else ResolvedFailure)
    else (if IsFailing(current) then IntroducedFailure else UnchangedOk)
  }

  /** The delta of one effect that is in at least one of the two steps. */
  function DeltaOf(id: Str, ep: Option<EffectRow>, ec: Option<EffectRow>): EffectDelta {
    match (ep, ec)
    case (Some(p), Some(c)) =>
      EffectDelta(id, ChangeOf(p.status, c.status), Difference(c.codes, p.codes), Difference(p.codes, c.codes), Some(p.status), Some(c.status))
    case (Some(p), None) =>
      EffectDelta(id, if IsFailing(p.status) then ResolvedFailure else UnchangedOk, [], Sort(p.codes, Le), Some(p.status), None)
    case (None, Some(c)) =>
      EffectDelta(id, if IsFailing(c.status) then IntroducedFailure else UnchangedOk, Sort(c.codes, Le), [], None, Some(c.status))
    case (None, None) => EffectDelta(id, UnchangedOk, [], [], None, None)
  }

  function EffectIds(effects: seq<EffectRow>): (r: seq<Str>)
    ensures |r| == |effects|
  {
    seq(|effects|, i requires 0 <= i < |effects| => effects[i].id)
  }

  function IdUnion(p: seq<Str>, c: seq<Str>): seq<Str> { Sort(Dedup(p + c), Le) }

  function EffectDeltas(p: seq<EffectRow>, c: seq<EffectRow>): seq<EffectDelta> {
    DeltasFor(IdUnion(EffectIds(p), EffectIds(c)), p, c)
  }

  function DeltasFor(ids: seq<Str>, p: seq<EffectRow>, c: seq<EffectRow>): (r: seq<EffectDelta>)
    ensures |r| == |ids|
  {
    seq(|ids|, i requires 0 <= i < |ids| => DeltaOf(ids[i], LastById(p, ids[i]), LastById(c, ids[i])))
  }

  function EntryOf(k: Str, sp: Option<Step>, sc: Option<Step>): Entry
    requires sp.Some? || sc.Some?
  {
    if sc.None? then StructuralRemoval(k, sp.value.seqNo, sp.value.toolId, IsFailing(sp.value.status))
    else if sp.None? then StructuralAddition(k, sc.value.seqNo, sc.value.toolId, IsFailing(sc.value.status))
    else
      var p, c := sp.value, sc.value;
      var change := ChangeOf(p.status, c.status);
      if !change.BothFailing? then Present(k, change, p.seqNo, c.seqNo, p.toolId, c.toolId)
      else StillFailing(k, p.seqNo, c.seqNo, p.toolId, c.toolId, p.toolId != c.toolId,
                        Difference(c.codes, p.codes), Difference(p.codes, c.codes), EffectDeltas(p.effects, c.effects))
  }

  function KeptAt(steps: seq<Step>, k: Str): Option<Step> {
    var at := StepsAt(steps, k);
    if at == [] then None else Some(Kept(at))
  }

  ghost predicate Compares(e: Entry, k: Str, prior: seq<Step>, current: seq<Step>) {
    var sp, sc := KeptAt(prior, k), KeptAt(current, k);
    (sp.Some? || sc.Some?) && e == EntryOf(k, sp, sc)
  }

  function EntryKeys(entries: seq<Entry>): (r: seq<Str>)
    ensures |r| == |entries|
  {
    seq(|entries|, i requires 0 <= i < |entries| => entries[i].key)
  }

  /** One entry for each key of either run, in ascending order of keys. */
  ghost predicate IsBucketA(entries: seq<Entry>, prior: seq<Step>, current: seq<Step>) {
    && Ascending(EntryKeys(entries))
    && (forall k :: k in EntryKeys(entries) <==> StepsAt(prior, k) != [] || StepsAt(current, k) != [])
    && AllCompare(entries, prior, current)
  }

  lemma IdUnionSorted(p: seq<Str>, c: seq<Str>)
    ensures Ascending(IdUnion(p, c)) && Elements(IdUnion(p, c)) == Elements(p) + Elements(c)
  {
    var d := Dedup(p + c);
    LeOrder();
    SortContents(d, Le);
    SortSorted(d, Le);
    SortDistinct(d, Le);
    forall x ensures x in Elements(IdUnion(p, c)) <==> x in Elements(p) + Elements(c) {
      assert x in Sort(d, Le) <==> x in d;
      assert x in d <==> x in p + c;
    }
  }

  lemma {:induction false} LastByIdFinds(effects: seq<EffectRow>, id: Str)
    ensures LastById(effects, id).Some? <==> id in EffectIds(effects)
    ensures LastById(effects, id).Some? ==> LastById(effects, id).value.id == id && LastById(effects, id).value in effects
  {
    if effects != [] {
      var front, last := effects[..|effects| - 1], effects[|effects| - 1];
      LastByIdFinds(front, id);
      assert EffectIds(effects) == EffectIds(front) + [last.id];
      assert effects == front + [last];
    }
  }

  /** new Map(effects.map((e) => [e.id, e])): of rows with one id the last stays. */
  method ById(effects: seq<EffectRow>) returns (m: map<Str, EffectRow>)
    ensures IsById(m, effects)
  {
    m := map[];
    for i := 0 to |effects|
      invariant m.Keys == Elements(EffectIds(effects[..i]))
      invariant forall id :: id in m ==> LastById(effects[..i], id) == Some(m[id])
    {
      var e := effects[i];
      var front := effects[..i + 1];
      assert front[..i] == effects[..i] && front[i] == e;
      assert EffectIds(front) == EffectIds(effects[..i]) + [e.id];
      m := m[e.id := e];
    }
    assert effects[..|effects|] == effects;
  }

  lemma Looked(m: map<Str, EffectRow>, effects: seq<EffectRow>, id: Str)
    requires IsById(m, effects)
    ensures LastById(effects, id) == if id in m then Some(m[id]) else None
  {
    LastByIdFinds(effects, id);
    assert id in m <==> id in Elements(EffectIds(effects));
  }

  method DiffEffect(id: Str, ep: Option<EffectRow>, ec: Option<EffectRow>) returns (d: EffectDelta)
    requires ep.Some? || ec.Some?
    ensures d == DeltaOf(id, ep, ec)
  {
    if ec.None? {
      var p := ep.value;
      return EffectDelta(id, if IsFailing(p.status) then ResolvedFailure else UnchangedOk, [], Sort(p.codes, Le), Some(p.status), None);
    }
    if ep.None? {
      var c := ec.value;
      return EffectDelta(id, if IsFailing(c.status) then IntroducedFailure else UnchangedOk, Sort(c.codes, Le), [], None, Some(c.status));
    }
    var p, c := ep.value, ec.value;
    var intro := Subtracted(c.codes, p.codes);
    var reso := Subtracted(p.codes, c.codes);
    var kind := BothFailing;
    if !IsFailing(p.status) && !IsFailing(c.status) {
      kind := UnchangedOk;
    } else if !IsFailing(p.status) && IsFailing(c.status) {
      kind := IntroducedFailure;
    } else if IsFailing(p.status) && !IsFailing(c.status) {
      kind := ResolvedFailure;
    }
    return EffectDelta(id, kind, intro, reso, Some(p.status), Some(c.status));
  }

  ghost predicate IsById(m: map<Str, EffectRow>, effects: seq<EffectRow>) {
    m.Keys == Elements(EffectIds(effects)) && forall id :: id in m ==> LastById(effects, id) == Some(m[id])
  }

  method DiffIds(ids: seq<Str>, byP: map<Str, EffectRow>, byC: map<Str, EffectRow>, ghost p: seq<EffectRow>, ghost c: seq<EffectRow>)
    returns (deltas: seq<EffectDelta>)
    requires IsById(byP, p) && IsById(byC, c) && Elements(ids) == byP.Keys + byC.Keys
    ensures deltas == DeltasFor(ids, p, c)
  {
    ghost var all := DeltasFor(ids, p, c);
    deltas := [];
    for i := 0 to |ids|
      invariant deltas == all[..i]
    {
      var id := ids[i];
      assert id in Elements(ids);
      var ep := if id in byP then Some(byP[id]) else None;
      var ec := if id in byC then Some(byC[id]) else None;
      Looked(byP, p, id);
      Looked(byC, c, id);
      var d := DiffEffect(id, ep, ec);
      assert all[i] == d;
      deltas := deltas + [d];
    }
  }

  method DiffEffects(p: seq<EffectRow>, c: seq<EffectRow>) returns (deltas: seq<EffectDelta>)
    ensures deltas == EffectDeltas(p, c)
  {
    var byP := ById(p);
    var byC := ById(c);
    var ids := SortedKeys(byP.Keys + byC.Keys);
    deltas := DiffIds(ids, byP, byC, p, c);
    IdUnionSorted(EffectIds(p), EffectIds(c));
    AscendingUnique(ids, IdUnion(EffectIds(p), EffectIds(c)));
  }

  method CompareStep(k: Str, sp: Option<Step>, sc: Option<Step>) returns (e: Entry)
    requires sp.Some? || sc.Some?
    ensures e == EntryOf(k, sp, sc)
  {
    if sp.Some? && sc.None? {
      return StructuralRemoval(k, sp.value.seqNo, sp.value.toolId, IsFailing(sp.value.status));
    }
    if sp.None? {
      return StructuralAddition(k, sc.value.seqNo, sc.value.toolId, IsFailing(sc.value.status));
    }
    var p, c := sp.value, sc.value;
    var fp, fc := IsFailing(p.status), IsFailing(c.status);
    if !fp && !fc {
      return Present(k, UnchangedOk, p.seqNo, c.seqNo, p.toolId, c.toolId);
    }
    if !fp && fc {
      return Present(k, IntroducedFailure, p.seqNo, c.seqNo, p.toolId, c.toolId);
    }
    if fp && !fc {
      return Present(k, ResolvedFailure, p.seqNo, c.seqNo, p.toolId, c.toolId);
    }
    var introduced := Subtracted(c.codes, p.codes);
    var resolved := Subtracted(p.codes, c.codes);
    var effects := DiffEffects(p.effects, c.effects);
    return StillFailing(k, p.seqNo, c.seqNo, p.toolId, c.toolId, p.toolId != c.toolId, introduced, resolved, effects);
  }

  predicate EntryBefore(a: Entry, b: Entry) { Le(a.key, b.key) }

  lemma AlreadySorted(entries: seq<Entry>)
    requires Ascending(EntryKeys(entries))
    ensures Sort(entries, EntryBefore) == entries
  {
    forall i, j | 0 <= i < j < |entries| ensures EntryBefore(entries[i], entries[j]) {
      assert Less(EntryKeys(entries)[i], EntryKeys(entries)[j]);
    }
    SortIdentity(entries, EntryBefore);
  }

  ghost predicate AllCompare(entries: seq<Entry>, prior: seq<Step>, current: seq<Step>) {
    forall i :: 0 <= i < |entries| ==> Compares(entries[i], entries[i].key, prior, current)
  }

  method CompareAt(k: Str, mapP: map<Str, Step>, mapC: map<Str, Step>, ghost prior: seq<Step>, ghost current: seq<Step>) returns (e: Entry)
    requires k in mapP.Keys + mapC.Keys && HoldsKept(mapP, prior) && HoldsKept(mapC, current)
    ensures e.key == k && Compares(e, e.key, prior, current)
  {
    var sp := if k in mapP then Some(mapP[k]) else None;
    var sc := if k in mapC then Some(mapC[k]) else None;
    assert KeptAt(prior, k) == sp && KeptAt(current, k) == sc;
    e := CompareStep(k, sp, sc);
  }

  lemma PushEntry(entries: seq<Entry>, e: Entry, keys: seq<Str>, i: nat, prior: seq<Step>, current: seq<Step>)
    requires i < |keys| && EntryKeys(entries) == keys[..i] && e.key == keys[i]
    requires AllCompare(entries, prior, current) && Compares(e, e.key, prior, current)
    ensures EntryKeys(entries + [e]) == keys[..i + 1] && AllCompare(entries + [e], prior, current)
  {
    assert EntryKeys(entries + [e]) == EntryKeys(entries) + [keys[i]];
  }

  method CompareKeys(keys: seq<Str>, mapP: map<Str, Step>, mapC: map<Str, Step>, ghost prior: seq<Step>, ghost current: seq<Step>)
    returns (entries: seq<Entry>)
    requires Elements(keys) == mapP.Keys + mapC.Keys && HoldsKept(mapP, prior) && HoldsKept(mapC, current)
    ensures EntryKeys(entries) == keys && AllCompare(entries, prior, current)
  {
    entries := [];
    for i := 0 to |keys|
      invariant EntryKeys(entries) == keys[..i] && AllCompare(entries, prior, current)
    {
      assert keys[i] in Elements(keys);
      var e := CompareAt(keys[i], mapP, mapC, prior, current);
      PushEntry(entries, e, keys, i, prior, current);
      entries := entries + [e];
    }
    assert keys[..|keys|] == keys;
  }

  ghost predicate HoldsKept(m: map<Str, Step>, steps: seq<Step>) {
    forall k :: KeptAt(steps, k) == if k in m then Some(m[k]) else None
  }

  lemma KeyMapHolds(m: map<Str, Step>, ambiguous: seq<Ambiguity>, steps: seq<Step>)
    requires IsKeyMap(m, ambiguous, steps)
    ensures HoldsKept(m, steps)
  {
    forall k ensures KeptAt(steps, k) == if k in m then Some(m[k]) else None {
      assert KeyExact(m, ambiguous, steps, k);
    }
  }

  predicate KeyBefore(a: Ambiguity, b: Ambiguity) { Le(a.key, b.key) }

  /** Both runs' resolutions in key order, those of one key in the order they were made, the prior run's first. */
  ghost predicate IsMerged(ambiguous: seq<Ambiguity>, prior: seq<Step>, current: seq<Step>) {
    && Sorted(ambiguous, KeyBefore)
    && forall k :: Filter(ForKey(k), ambiguous) == AmbiguitiesOf(k, StepsAt(prior, k)) + AmbiguitiesOf(k, StepsAt(current, k))
  }

  lemma KeyBeforeOrder()
    ensures TotalPreorder(KeyBefore)
  {
    LeOrder();
    forall a, b, c ensures KeyBefore(a, b) || KeyBefore(b, a)
                   ensures KeyBefore(a, b) && KeyBefore(b, c) ==> KeyBefore(a, c) {
      assert Le(a.key, b.key) || Le(b.key, a.key);
      assert Le(a.key, b.key) && Le(b.key, c.key) ==> Le(a.key, c.key);
    }
  }

  lemma MergedRecords(ambP: seq<Ambiguity>, ambC: seq<Ambiguity>, prior: seq<Step>, current: seq<Step>,
                      mapP: map<Str, Step>, mapC: map<Str, Step>)
    requires IsKeyMap(mapP, ambP, prior) && IsKeyMap(mapC, ambC, current)
    ensures IsMerged(Sort(ambP + ambC, KeyBefore), prior, current)
  {
    KeyBeforeOrder();
    SortSorted(ambP + ambC, KeyBefore);
    var merged := Sort(ambP + ambC, KeyBefore);
    forall k ensures Filter(ForKey(k), merged) == AmbiguitiesOf(k, StepsAt(prior, k)) + AmbiguitiesOf(k, StepsAt(current, k)) {
      assert KeyExact(mapP, ambP, prior, k) && KeyExact(mapC, ambC, current, k);
      SortStable(ambP + ambC, KeyBefore, ForKey(k));
      FilterConcat(ForKey(k), ambP, ambC);
    }
  }

  method PairwiseBucketA(prior: seq<Step>, current: seq<Step>) returns (entries: seq<Entry>, ambiguous: seq<Ambiguity>)
    ensures IsBucketA(entries, prior, current)
    ensures IsMerged(ambiguous, prior, current)
  {
    var mapP, ambP := BuildLogicalStepKeyMap(prior);
    var mapC, ambC := BuildLogicalStepKeyMap(current);
    ambiguous := Sort(ambP + ambC, KeyBefore);
    MergedRecords(ambP, ambC, prior, current, mapP, mapC);
    KeyMapHolds(mapP, ambP, prior);
    KeyMapHolds(mapC, ambC, current);
    var keys := SortedKeys(mapP.Keys + mapC.Keys);
    entries := CompareKeys(keys, mapP, mapC, prior, current);
    AlreadySorted(entries);
    entries := Sort(entries, EntryBefore);
    KeysListed(keys, mapP, mapC, prior, current);
  }

  lemma KeysListed(keys: seq<Str>, mapP: map<Str, Step>, mapC: map<Str, Step>, prior: seq<Step>, current: seq<Step>)
    requires Elements(keys) == mapP.Keys + mapC.Keys && HoldsKept(mapP, prior) && HoldsKept(mapC, current)
    ensures forall k :: k in keys <==> StepsAt(prior, k) != [] || StepsAt(current, k) != []
  {
    forall k ensures k in keys <==> StepsAt(prior, k) != [] || StepsAt(current, k) != [] {
      assert k in keys <==> k in Elements(keys);
      assert KeptAt(prior, k).Some? <==> k in mapP;
      assert KeptAt(current, k).Some? <==> k in mapC;
    }
  }

  // ----- what the entries say

  function CodesOf(e: Option<EffectRow>): seq<Str> { match e case Some(r) => r.codes case None => [] }
  predicate FailingEffect(e: Option<EffectRow>) { e.Some? && !e.value.status.Verified? }
  function StatusOf(e: Option<EffectRow>): Option<Status> { match e case Some(r) => Some(r.status) case None => None }

  /** An effect that is absent on one side counts as one that passes there without codes. */
  lemma DeltaMeans(id: Str, ep: Option<EffectRow>, ec: Option<EffectRow>)
    ensures var d := DeltaOf(id, ep, ec);
            && d.effectId == id && d.statusPrior == StatusOf(ep) && d.statusCurrent == StatusOf(ec)
            && multiset(d.introduced) == multiset(CodesOf(ec)) - multiset(CodesOf(ep)) && Sorted(d.introduced, Le)
            && multiset(d.resolved) == multiset(CodesOf(ep)) - multiset(CodesOf(ec)) && Sorted(d.resolved, Le)
            && (d.kind.IntroducedFailure? <==> !FailingEffect(ep) && FailingEffect(ec))
            && (d.kind.ResolvedFailure? <==> FailingEffect(ep) && !FailingEffect(ec))
            && (d.kind.BothFailing? <==> FailingEffect(ep) && FailingEffect(ec))
  {
    LeOrder();
    DifferenceContents(CodesOf(ec), CodesOf(ep));
    DifferenceContents(CodesOf(ep), CodesOf(ec));
    SortContents(CodesOf(ec), Le);
    SortContents(CodesOf(ep), Le);
    SortSorted(CodesOf(ec), Le);
    SortSorted(CodesOf(ep), Le);
  }

  /** Which entry a key gets, whose steps it describes, and what its code lists contain. */
  lemma EntryMeans(e: Entry, k: Str, prior: seq<Step>, current: seq<Step>)
    requires Compares(e, k, prior, current)
    ensures var sp, sc := KeptAt(prior, k), KeptAt(current, k);
            && e.key == k
            && (e.StructuralRemoval? <==> sc.None?) && (e.StructuralAddition? <==> sp.None?)
            && (sc.None? ==> e.seqPrior == sp.value.seqNo && e.toolIdPrior == sp.value.toolId
                             && (e.priorWasFailing <==> !sp.value.status.Verified?))
            && (sp.None? ==> e.seqCurrent == sc.value.seqNo && e.toolIdCurrent == sc.value.toolId
                             && (e.currentIsFailing <==> !sc.value.status.Verified?))
            && (sp.Some? && sc.Some? ==> PairMeans(e, sp.value, sc.value))
  {
    var sp, sc := KeptAt(prior, k), KeptAt(current, k);
    if sp.Some? && sc.Some? {
      DifferenceContents(sc.value.codes, sp.value.codes);
      DifferenceContents(sp.value.codes, sc.value.codes);
    }
  }

  /** The entry of a key that both runs have: the steps, which of them fail, and if both do what changed. */
  ghost predicate PairMeans(e: Entry, p: Step, c: Step) {
    && (e.Present? || e.StillFailing?)
    && e.seqPrior == p.seqNo && e.seqCurrent == c.seqNo && e.toolIdPrior == p.toolId && e.toolIdCurrent == c.toolId
    && (e.StillFailing? <==> !p.status.Verified? && !c.status.Verified?)
    && (e.Present? ==> (e.kind.IntroducedFailure? <==> !c.status.Verified?) && (e.kind.ResolvedFailure? <==> !p.status.Verified?)
                       && !e.kind.BothFailing?)
    && (e.StillFailing? ==>
          && (e.toolIdChanged <==> p.toolId != c.toolId)
          && multiset(e.introducedCodes) == multiset(c.codes) - multiset(p.codes)
          && multiset(e.resolvedCodes) == multiset(p.codes) - multiset(c.codes)
          && e.effects == EffectDeltas(p.effects, c.effects))
  }

  /** The row of an effect id: the last of that id, if there is one. */
  ghost predicate IsLastRow(r: Option<EffectRow>, effects: seq<EffectRow>, id: Str) {
    match r
    case None => forall i :: 0 <= i < |effects| ==> effects[i].id != id
    case Some(row) => exists i :: 0 <= i < |effects| && effects[i] == row && row.id == id
                                  && forall j :: i < j < |effects| ==> effects[j].id != id
  }

  lemma {:induction false} LastByIdMeans(effects: seq<EffectRow>, id: Str)
    ensures IsLastRow(LastById(effects, id), effects, id)
  {
    if effects != [] {
      var front, last := effects[..|effects| - 1], effects[|effects| - 1];
      if last.id == id {
        assert effects[|effects| - 1] == last;
      } else {
        LastByIdMeans(front, id);
        assert forall i :: 0 <= i < |front| ==> effects[i] == front[i];
      }
    }
  }

  /** A failing pair lists every effect of either step once, ascending by id. */
  lemma EffectsListed(p: seq<EffectRow>, c: seq<EffectRow>)
    ensures var deltas := EffectDeltas(p, c);
            && (forall i, j :: 0 <= i < j < |deltas| ==> Less(deltas[i].effectId, deltas[j].effectId))
            && (forall id :: (exists i :: 0 <= i < |deltas| && deltas[i].effectId == id) <==> id in EffectIds(p) || id in EffectIds(c))
            && (forall i :: 0 <= i < |deltas| ==>
                  var id := deltas[i].effectId; deltas[i] == DeltaOf(id, LastById(p, id), LastById(c, id)))
  {
    var ids, deltas := IdUnion(EffectIds(p), EffectIds(c)), EffectDeltas(p, c);
    IdUnionSorted(EffectIds(p), EffectIds(c));
    forall i | 0 <= i < |deltas| ensures deltas[i].effectId == ids[i] {
      DeltaMeans(ids[i], LastById(p, ids[i]), LastById(c, ids[i]));
    }
    forall id ensures (exists i :: 0 <= i < |deltas| && deltas[i].effectId == id) <==> id in EffectIds(p) || id in EffectIds(c) {
      assert id in Elements(ids) <==> id in EffectIds(p) || id in EffectIds(c);
      if id in ids {
        var i :| 0 <= i < |ids| && ids[i] == id;
        assert deltas[i].effectId == id;
      }
    }
  }

  // ----- mirror symmetry

  function MirrorChange(c: Change): Change {
    match c
    case IntroducedFailure => ResolvedFailure
    case ResolvedFailure => IntroducedFailure
    case _ => c
  }

  function MirrorDelta(): EffectDelta -> EffectDelta {
    (d: EffectDelta) => EffectDelta(d.effectId, MirrorChange(d.kind), d.resolved, d.introduced, d.statusCurrent, d.statusPrior)
  }

  /** The entry as seen with the runs swapped. */
  function Mirror(): Entry -> Entry {
    (e: Entry) =>
    match e
    case StructuralRemoval(k, s, t, f) => StructuralAddition(k, s, t, f)
    case StructuralAddition(k, s, t, f) => StructuralRemoval(k, s, t, f)
    case Present(k, change, sp, sc, tp, tc) => Present(k, MirrorChange(change), sc, sp, tc, tp)
    case StillFailing(k, sp, sc, tp, tc, changed, i, r, effects) =>
      StillFailing(k, sc, sp, tc, tp, changed, r, i, Map(MirrorDelta(), effects))
  }

  lemma MirrorDeltas(p: seq<EffectRow>, c: seq<EffectRow>)
    ensures EffectDeltas(c, p) == Map(MirrorDelta(), EffectDeltas(p, c))
  {
    IdUnionSorted(EffectIds(p), EffectIds(c));
    IdUnionSorted(EffectIds(c), EffectIds(p));
    AscendingUnique(IdUnion(EffectIds(p), EffectIds(c)), IdUnion(EffectIds(c), EffectIds(p)));
  }

  lemma MirrorEntry(k: Str, sp: Option<Step>, sc: Option<Step>)
    requires sp.Some? || sc.Some?
    ensures EntryOf(k, sc, sp) == Mirror()(EntryOf(k, sp, sc))
  {
    if sp.Some? && sc.Some? {
      MirrorDeltas(sp.value.effects, sc.value.effects);
    }
  }

  /** Swapping the two runs mirrors the diff exactly, entry by entry and effect by effect. */
  lemma BucketAMirrors(e: seq<Entry>, f: seq<Entry>, prior: seq<Step>, current: seq<Step>)
    requires IsBucketA(e, prior, current) && IsBucketA(f, current, prior)
    ensures f == Map(Mirror(), e)
  {
    assert Elements(EntryKeys(e)) == Elements(EntryKeys(f)) by {
      forall k ensures k in Elements(EntryKeys(e)) <==> k in Elements(EntryKeys(f)) {
        assert k in EntryKeys(e) <==> k in EntryKeys(f);
      }
    }
    AscendingUnique(EntryKeys(e), EntryKeys(f));
    assert |e| == |EntryKeys(e)| == |f|;
    forall i | 0 <= i < |e| ensures f[i] == Mirror()(e[i]) {
      var k := EntryKeys(e)[i];
      assert k == EntryKeys(f)[i];
      MirrorEntry(k, KeptAt(prior, k), KeptAt(current, k));
    }
  }

  /** The diff is determined by the steps. */
  lemma BucketAUnique(e: seq<Entry>, f: seq<Entry>, prior: seq<Step>, current: seq<Step>)
    requires IsBucketA(e, prior, current) && IsBucketA(f, prior, current)
    ensures e == f
  {
    assert Elements(EntryKeys(e)) == Elements(EntryKeys(f)) by {
      forall k ensures k in Elements(EntryKeys(e)) <==> k in Elements(EntryKeys(f)) {
        assert k in EntryKeys(e) <==> k in EntryKeys(f);
      }
    }
    AscendingUnique(EntryKeys(e), EntryKeys(f));
    assert |e| == |EntryKeys(e)| == |f|;
    forall i | 0 <= i < |e| ensures f[i] == e[i] {
      assert EntryKeys(e)[i] == EntryKeys(f)[i];
    }
  }

  // ----- bucket B: failing steps without a verification request, by signature

  datatype Pair = Pair(signature: Str, count: nat)

  datatype BucketB = BucketB(introduced: seq<Pair>, resolved: seq<Pair>, matched: seq<Pair>)

  function FailsUnkeyed(): Step -> bool { (s: Step) => s.key.None? && IsFailing(s.status) }

  function Signatures(steps: seq<Step>, signature: Step -> Str): seq<Str> {
    Map(signature, Filter(FailsUnkeyed(), steps))
  }

  function ShowsUnkeyed(signature: Step -> Str, x: Str): Step -> bool {
    (s: Step) => s.key.None? && !s.status.Verified? && signature(s) == x
  }

  lemma SignaturesCons(s: Step, rest: seq<Step>, signature: Step -> Str)
    ensures Signatures([s] + rest, signature) ==
            (if s.key.None? && !s.status.Verified? then [signature(s)] else []) + Signatures(rest, signature)
  {
    FilterCons(FailsUnkeyed(), s, rest);
    assert FailsUnkeyed()(s) <==> s.key.None? && !s.status.Verified?;
    assert Map(signature, [s] + Filter(FailsUnkeyed(), rest)) == [signature(s)] + Signatures(rest, signature);
  }

  /** A signature counts the failing steps without a key that have it. */
  lemma {:induction false} SignaturesMean(steps: seq<Step>, signature: Step -> Str, x: Str)
    ensures multiset(Signatures(steps, signature))[x] == CountIf(ShowsUnkeyed(signature, x), steps)
  {
    if steps != [] {
      SignaturesMean(steps[1..], signature, x);
      SignaturesCons(steps[0], steps[1..], signature);
      assert steps == [steps[0]] + steps[1..];
    }
  }

  function PairKeys(ps: seq<Pair>): (r: seq<Str>)
    ensures |r| == |ps|
  {
    seq(|ps|, i requires 0 <= i < |ps| => ps[i].signature)
  }

  /** The pairs list a multiset: keys ascending, each with its positive count. */
  ghost predicate Lists(ps: seq<Pair>, m: multiset<Str>) {
    && Ascending(PairKeys(ps))
    && (forall k :: k in PairKeys(ps) <==> k in m)
    && (forall i :: 0 <= i < |ps| ==> ps[i].count == m[ps[i].signature])
  }

  method MultisetToPairArray(m: Counts, ghost s: multiset<Str>) returns (ps: seq<Pair>)
    requires IsCount(m, s)
    ensures Lists(ps, s)
  {
    var keys := SortedKeys(m.Keys);
    ps := [];
    for i := 0 to |keys|
      invariant PairKeys(ps) == keys[..i]
      invariant forall j :: 0 <= j < |ps| ==> ps[j].count == s[ps[j].signature]
    {
      assert keys[i] in Elements(keys);
      var p := Pair(keys[i], m[keys[i]]);
      assert s[keys[i]] == CountOf(m, keys[i]);
      assert PairKeys(ps + [p]) == PairKeys(ps) + [keys[i]] == keys[..i + 1];
      ps := ps + [p];
    }
    assert keys[..|keys|] == keys;
    forall k ensures k in PairKeys(ps) <==> k in s {
      assert k in keys <==> k in Elements(keys);
      assert s[k] == CountOf(m, k);
    }
  }

  /** The pairs list m as far as its keys are in done. */
  ghost predicate ListsWithin(ps: seq<Pair>, m: multiset<Str>, done: seq<Str>) {
    && Ascending(PairKeys(ps))
    && (forall k :: k in PairKeys(ps) <==> k in done && k in m)
    && (forall i :: 0 <= i < |ps| ==> ps[i].count == m[ps[i].signature])
  }

  lemma ListsNext(ps: seq<Pair>, m: multiset<Str>, keys: seq<Str>, i: nat)
    requires i < |keys| && Ascending(keys) && ListsWithin(ps, m, keys[..i])
    ensures keys[i] in m ==> ListsWithin(ps + [Pair(keys[i], m[keys[i]])], m, keys[..i + 1])
    ensures keys[i] !in m ==> ListsWithin(ps, m, keys[..i + 1])
  {
    assert keys[..i + 1] == keys[..i] + [keys[i]];
    PushAscending(ps, keys, i, Pair(keys[i], m[keys[i]]));
  }

  lemma CommonKeys(mP: Counts, mC: Counts, p: multiset<Str>, c: multiset<Str>, keys: seq<Str>)
    requires IsCount(mP, p) && IsCount(mC, c) && Elements(keys) == mP.Keys + mC.Keys
    ensures forall k :: k in p * c ==> k in keys
  {
    forall k | k in p * c ensures k in keys {
      assert p[k] == CountOf(mP, k);
      assert k in Elements(keys);
    }
  }

  method MatchedCounts(mP: Counts, mC: Counts, ghost p: multiset<Str>, ghost c: multiset<Str>) returns (matched: seq<Pair>)
    requires IsCount(mP, p) && IsCount(mC, c)
    ensures Lists(matched, p * c)
  {
    var keys := SortedKeys(mP.Keys + mC.Keys);
    matched := [];
    for i := 0 to |keys|
      invariant ListsWithin(matched, p * c, keys[..i])
    {
      var sig := keys[i];
      assert p[sig] == CountOf(mP, sig) && c[sig] == CountOf(mC, sig);
      var n := if CountOf(mP, sig) < CountOf(mC, sig) then CountOf(mP, sig) else CountOf(mC, sig);
      assert n == (p * c)[sig];
      ListsNext(matched, p * c, keys, i);
      if n > 0 {
        matched := matched + [Pair(sig, n)];
      }
    }
    assert keys[..|keys|] == keys;
    CommonKeys(mP, mC, p, c, keys);
  }

  lemma PushAscending(ps: seq<Pair>, keys: seq<Str>, i: nat, p: Pair)
    requires i < |keys| && Ascending(keys) && p.signature == keys[i]
    requires Ascending(PairKeys(ps)) && forall k :: k in PairKeys(ps) ==> k in keys[..i]
    ensures Ascending(PairKeys(ps + [p])) && PairKeys(ps + [p]) == PairKeys(ps) + [keys[i]]
  {
    var r := PairKeys(ps) + [keys[i]];
    assert PairKeys(ps + [p]) == r;
    forall x, y | 0 <= x < y < |r| ensures Less(r[x], r[y]) {
      if y == |r| - 1 {
        var k := r[x];
        assert k in PairKeys(ps);
        assert k in keys[..i];
        var j :| 0 <= j < i && keys[j] == k;
      }
    }
  }

  /** What the second bucket of a comparison contains. */
  ghost predicate IsBucketB(b: BucketB, prior: seq<Step>, current: seq<Step>, signature: Step -> Str) {
    var p, c := multiset(Signatures(prior, signature)), multiset(Signatures(current, signature));
    Lists(b.introduced, c - p) && Lists(b.resolved, p - c) && Lists(b.matched, p * c)
  }

  method PairwiseBucketB(prior: seq<Step>, current: seq<Step>, signature: Step -> Str) returns (b: BucketB)
    ensures IsBucketB(b, prior, current, signature)
  {
    var sigsP := Signatures(prior, signature);
    var sigsC := Signatures(current, signature);
    var mP := MultisetFromCodes(sigsP);
    var mC := MultisetFromCodes(sigsC);
    var introduced := Subtracted(sigsC, sigsP);
    var resolved := Subtracted(sigsP, sigsC);
    DifferenceContents(sigsC, sigsP);
    DifferenceContents(sigsP, sigsC);
    var introducedMap := MultisetFromCodes(introduced);
    var resolvedMap := MultisetFromCodes(resolved);
    var matched := MatchedCounts(mP, mC, multiset(sigsP), multiset(sigsC));
    var i := MultisetToPairArray(introducedMap, multiset(introduced));
    var r := MultisetToPairArray(resolvedMap, multiset(resolved));
    b := BucketB(i, r, matched);
  }

  /** How often a list of pairs counts a signature. */
  function Listed(ps: seq<Pair>, k: Str): nat {
    if ps == [] then 0 else (if ps[0].signature == k then ps[0].count else 0) + Listed(ps[1..], k)
  }

  lemma {:induction false} ListedOnce(ps: seq<Pair>, i: nat)
    requires i < |ps| && Ascending(PairKeys(ps))
    ensures Listed(ps, ps[i].signature) == ps[i].count
  {
    var k := ps[i].signature;
    assert PairKeys(ps)[1..] == PairKeys(ps[1..]);
    if i == 0 {
      forall j | 0 <= j < |ps[1..]| ensures ps[1..][j].signature != k {
        assert Less(PairKeys(ps)[0], PairKeys(ps)[j + 1]);
      }
      ListedNever(ps[1..], k);
    } else {
      assert Less(PairKeys(ps)[0], PairKeys(ps)[i]);
      ListedOnce(ps[1..], i - 1);
    }
  }

  lemma {:induction false} ListedNever(ps: seq<Pair>, k: Str)
    requires forall j :: 0 <= j < |ps| ==> ps[j].signature != k
    ensures Listed(ps, k) == 0
  {
    if ps != [] { ListedNever(ps[1..], k); }
  }

  lemma ListedCount(ps: seq<Pair>, m: multiset<Str>, k: Str)
    requires Lists(ps, m)
    ensures Listed(ps, k) == m[k]
  {
    if k in PairKeys(ps) {
      var i :| 0 <= i < |ps| && PairKeys(ps)[i] == k;
      ListedOnce(ps, i);
    } else {
      forall j | 0 <= j < |ps| ensures ps[j].signature != k { assert PairKeys(ps)[j] in PairKeys(ps); }
      ListedNever(ps, k);
    }
  }

  /** Signature counts are conserved: current = prior - resolved + introduced, never both, and the rest is matched. */
  lemma BucketBConserves(b: BucketB, prior: seq<Step>, current: seq<Step>, signature: Step -> Str, k: Str)
    requires IsBucketB(b, prior, current, signature)
    ensures var p, c := multiset(Signatures(prior, signature))[k], multiset(Signatures(current, signature))[k];
            && c == p - Listed(b.resolved, k) + Listed(b.introduced, k)
            && (Listed(b.resolved, k) == 0 || Listed(b.introduced, k) == 0)
            && Listed(b.matched, k) == p - Listed(b.resolved, k)
  {
    var p, c := multiset(Signatures(prior, signature)), multiset(Signatures(current, signature));
    ListedCount(b.introduced, c - p, k);
    ListedCount(b.resolved, p - c, k);
    ListedCount(b.matched, p * c, k);
  }

  lemma ListsUnique(a: seq<Pair>, b: seq<Pair>, m: multiset<Str>)
    requires Lists(a, m) && Lists(b, m)
    ensures a == b
  {
    assert Elements(PairKeys(a)) == Elements(PairKeys(b)) by {
      forall k ensures k in Elements(PairKeys(a)) <==> k in Elements(PairKeys(b)) {
        assert k in PairKeys(a) <==> k in PairKeys(b);
      }
    }
    AscendingUnique(PairKeys(a), PairKeys(b));
    assert |a| == |PairKeys(a)| == |b|;
    forall i | 0 <= i < |a| ensures a[i] == b[i] {
      assert PairKeys(a)[i] == PairKeys(b)[i];
    }
  }

  /** Swapping the two runs exchanges introduced and resolved and leaves the matched counts. */
  lemma BucketBMirrors(b: BucketB, c: BucketB, prior: seq<Step>, current: seq<Step>, signature: Step -> Str)
    requires IsBucketB(b, prior, current, signature) && IsBucketB(c, current, prior, signature)
    ensures c == BucketB(b.resolved, b.introduced, b.matched)
  {
    var p, q := multiset(Signatures(prior, signature)), multiset(Signatures(current, signature));
    assert p * q == q * p;
    ListsUnique(c.introduced, b.resolved, p - q);
    ListsUnique(c.resolved, b.introduced, q - p);
    ListsUnique(c.matched, b.matched, p * q);
  }

  /** The bucket is determined by the steps. */
  lemma BucketBUnique(b: BucketB, c: BucketB, prior: seq<Step>, current: seq<Step>, signature: Step -> Str)
    requires IsBucketB(b, prior, current, signature) && IsBucketB(c, prior, current, signature)
    ensures b == c
  {
    var p, q := multiset(Signatures(prior, signature)), multiset(Signatures(current, signature));
    ListsUnique(b.introduced, c.introduced, q - p);
    ListsUnique(b.resolved, c.resolved, p - q);
    ListsUnique(b.matched, c.matched, p * q);
  }
}
