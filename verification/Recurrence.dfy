/** What recurs over several runs: failure patterns, categories and their streaks (src/runComparison.ts, src/actionableFailure.ts). */
module Recurrence {
  import opened Sorting
  import opened Utf16
  import opened LogicalSteps
  import opened RunComparison

  type Run = seq<Step>

  datatype Exemplar = Exemplar(runIndex: int, seqNo: int, toolId: Str)
  datatype Pattern = Pattern(signature: Str, runIndices: seq<int>, runsHitCount: nat, exemplars: seq<Exemplar>)

  // ----- which runs a signature fails in

  predicate Shows(s: Step, signature: Step -> Str, sig: Str) { !s.status.Verified? && signature(s) == sig }

  /** The first failing step of a run with this signature. */
  function FirstHit(run: Run, signature: Step -> Str, sig: Str): Option<Step> {
    if run == [] then None
    else
      var before := FirstHit(run[..|run| - 1], signature, sig);
      if before.Some? then before
      else if Shows(run[|run| - 1], signature, sig) then Some(run[|run| - 1]) else None
  }

  lemma {:induction false} FirstHitMeans(run: Run, signature: Step -> Str, sig: Str)
    ensures FirstHit(run, signature, sig).Some? <==> exists s :: s in run && Shows(s, signature, sig)
    ensures FirstHit(run, signature, sig).Some? ==>
              FirstHit(run, signature, sig).value in run && Shows(FirstHit(run, signature, sig).value, signature, sig)
  {
    if run != [] {
      FirstHitMeans(run[..|run| - 1], signature, sig);
      assert run == run[..|run| - 1] + [run[|run| - 1]];
    }
  }

  /** The indices of the runs in which the signature fails, ascending. */
  function HitRuns(runs: seq<Run>, signature: Step -> Str, sig: Str): (r: seq<int>)
    ensures AscendingInts(r)
    ensures forall i :: i in r <==> 0 <= i < |runs| && FirstHit(runs[i], signature, sig).Some?
  {
    if runs == [] then []
    else
      var r := HitRuns(runs[..|runs| - 1], signature, sig);
      assert forall k :: 0 <= k < |r| ==> r[k] in r;
      if FirstHit(runs[|runs| - 1], signature, sig).Some? then r + [|runs| - 1] else r
  }

  function NextSamples(list: seq<Exemplar>, e: Exemplar): seq<Exemplar> { if |list| < 3 then list + [e] else list }

  function Exemplars(runs: seq<Run>, signature: Step -> Str, sig: Str): seq<Exemplar> {
    if runs == [] then []
    else
      var ex := Exemplars(runs[..|runs| - 1], signature, sig);
      var hit := FirstHit(runs[|runs| - 1], signature, sig);
      if hit.Some? then NextSamples(ex, Exemplar(|runs| - 1, hit.value.seqNo, hit.value.toolId)) else ex
  }

  /** One exemplar from each of the first three runs that the signature hits: the first step there that fails with it. */
  lemma {:induction false} ExemplarsMean(runs: seq<Run>, signature: Step -> Str, sig: Str)
    ensures var hits, ex := HitRuns(runs, signature, sig), Exemplars(runs, signature, sig);
            |ex| == (if |hits| < 3 then |hits| else 3) && forall i :: 0 <= i < |ex| ==> IsExemplar(ex[i], hits[i], runs, signature, sig)
  {
    if runs != [] {
      var front := runs[..|runs| - 1];
      ExemplarsMean(front, signature, sig);
      var hits, ex := HitRuns(front, signature, sig), Exemplars(front, signature, sig);
      forall i | 0 <= i < |ex| ensures IsExemplar(ex[i], hits[i], runs, signature, sig) {
        assert IsExemplar(ex[i], hits[i], front, signature, sig);
        assert runs[hits[i]] == front[hits[i]];
      }
      var last := |runs| - 1;
      var hit := FirstHit(runs[last], signature, sig);
      assert hit.Some? ==> IsExemplar(Exemplar(last, hit.value.seqNo, hit.value.toolId), last, runs, signature, sig);
    }
  }

  ghost predicate IsExemplar(e: Exemplar, hit: int, runs: seq<Run>, signature: Step -> Str, sig: Str) {
    0 <= hit < |runs| && FirstHit(runs[hit], signature, sig).Some? &&
    var s := FirstHit(runs[hit], signature, sig).value;
    e == Exemplar(hit, s.seqNo, s.toolId)
  }

  function PatternOf(runs: seq<Run>, signature: Step -> Str, sig: Str): Pattern {
    var hits := HitRuns(runs, signature, sig);
    Pattern(sig, hits, |hits|, Exemplars(runs, signature, sig))
  }

  function PatternKeys(ps: seq<Pattern>): (r: seq<Str>)
    ensures |r| == |ps|
  {
    seq(|ps|, i requires 0 <= i < |ps| => ps[i].signature)
  }

  /** A pattern for exactly the signatures that fail in at least two runs, ascending, with exactly those runs. */
  ghost predicate IsRecurrence(ps: seq<Pattern>, runs: seq<Run>, signature: Step -> Str) {
    && Ascending(PatternKeys(ps))
    && (forall sig :: sig in PatternKeys(ps) <==> |HitRuns(runs, signature, sig)| >= 2)
    && (forall i :: 0 <= i < |ps| ==> ps[i] == PatternOf(runs, signature, ps[i].signature))
  }

  // ----- the nested loops

  type RunSets = map<Str, seq<int>>
  type Samples = map<Str, seq<Exemplar>>

  function RunsOf(sets: RunSets, sig: Str): seq<int> { if sig in sets then sets[sig] else [] }
  function SamplesOf(ex: Samples, sig: Str): seq<Exemplar> { if sig in ex then ex[sig] else [] }

  /** After the given runs both maps hold what belongs to each signature, and no empty sets. */
  ghost predicate Recorded(sets: RunSets, ex: Samples, runs: seq<Run>, signature: Step -> Str) {
    forall sig ::
      && RunsOf(sets, sig) == HitRuns(runs, signature, sig)
      && SamplesOf(ex, sig) == Exemplars(runs, signature, sig)
      && (sig in sets ==> sets[sig] != [])
  }

  lemma LastRun(runs: seq<Run>, run: Run, signature: Step -> Str, sig: Str)
    ensures var hit := FirstHit(run, signature, sig);
            if hit.Some?
            then HitRuns(runs + [run], signature, sig) == HitRuns(runs, signature, sig) + [|runs|]
                 && Exemplars(runs + [run], signature, sig) ==
                    NextSamples(Exemplars(runs, signature, sig), Exemplar(|runs|, hit.value.seqNo, hit.value.toolId))
            else HitRuns(runs + [run], signature, sig) == HitRuns(runs, signature, sig)
                 && Exemplars(runs + [run], signature, sig) == Exemplars(runs, signature, sig)
  {
    var all := runs + [run];
    assert all[..|all| - 1] == runs && all[|all| - 1] == run;
  }

  lemma NextStep(run: Run, s: Step, signature: Step -> Str, sig: Str)
    ensures FirstHit(run + [s], signature, sig) ==
            if FirstHit(run, signature, sig).Some? then FirstHit(run, signature, sig)
            else if Shows(s, signature, sig) then Some(s) else None
  {
    assert (run + [s])[..|run + [s]| - 1] == run;
  }

  lemma RecordSkip(sets: RunSets, ex: Samples, runs: seq<Run>, run: Run, s: Step, signature: Step -> Str)
    requires Recorded(sets, ex, runs + [run], signature)
    requires !IsFailing(s.status) || FirstHit(run, signature, signature(s)).Some?
    ensures Recorded(sets, ex, runs + [run + [s]], signature)
  {
    var before, after := runs + [run], runs + [run + [s]];
    forall sig
      ensures HitRuns(after, signature, sig) == HitRuns(before, signature, sig)
      ensures Exemplars(after, signature, sig) == Exemplars(before, signature, sig)
    {
      NextStep(run, s, signature, sig);
      LastRun(runs, run, signature, sig);
      LastRun(runs, run + [s], signature, sig);
    }
  }

  lemma RecordHit(sets: RunSets, ex: Samples, runs: seq<Run>, run: Run, s: Step, signature: Step -> Str)
    requires Recorded(sets, ex, runs + [run], signature)
    requires IsFailing(s.status) && FirstHit(run, signature, signature(s)).None?
    ensures var sig := signature(s);
            Recorded(sets[sig := RunsOf(sets, sig) + [|runs|]],
                     ex[sig := NextSamples(SamplesOf(ex, sig), Exemplar(|runs|, s.seqNo, s.toolId))],
                     runs + [run + [s]], signature)
  {
    var sig := signature(s);
    var before, after := runs + [run], runs + [run + [s]];
    var moreSets := sets[sig := RunsOf(sets, sig) + [|runs|]];
    var moreEx := ex[sig := NextSamples(SamplesOf(ex, sig), Exemplar(|runs|, s.seqNo, s.toolId))];
    forall other
      ensures RunsOf(moreSets, other) == HitRuns(after, signature, other)
      ensures SamplesOf(moreEx, other) == Exemplars(after, signature, other)
    {
      assert RunsOf(sets, other) == HitRuns(before, signature, other);
      NextStep(run, s, signature, other);
      LastRun(runs, run, signature, other);
      LastRun(runs, run + [s], signature, other);
    }
  }

  ghost predicate SeenIn(seen: set<Str>, run: Run, signature: Step -> Str) {
    forall sig :: sig in seen <==> FirstHit(run, signature, sig).Some?
  }

  lemma SeenNext(seen: set<Str>, run: Run, s: Step, signature: Step -> Str)
    requires SeenIn(seen, run, signature)
    ensures SeenIn(if IsFailing(s.status) then seen + {signature(s)} else seen, run + [s], signature)
  {
    assert (run + [s])[..|run + [s]| - 1] == run;
  }

  method RecordRun(sets0: RunSets, ex0: Samples, ghost runs: seq<Run>, ri: nat, steps: Run, signature: Step -> Str)
    returns (sets: RunSets, ex: Samples)
    requires ri == |runs| && Recorded(sets0, ex0, runs, signature)
    ensures Recorded(sets, ex, runs + [steps], signature)
  {
    sets, ex := sets0, ex0;
    var seen: set<Str> := {};
    assert Recorded(sets, ex, runs + [[]], signature) by {
      forall sig
        ensures HitRuns(runs + [[]], signature, sig) == HitRuns(runs, signature, sig)
        ensures Exemplars(runs + [[]], signature, sig) == Exemplars(runs, signature, sig)
      {
        LastRun(runs, [], signature, sig);
      }
    }
    assert steps[..0] == [];
    for i := 0 to |steps|
      invariant SeenIn(seen, steps[..i], signature) && Recorded(sets, ex, runs + [steps[..i]], signature)
    {
      var step := steps[i];
      assert steps[..i + 1] == steps[..i] + [step];
      SeenNext(seen, steps[..i], step, signature);
      if !IsFailing(step.status) {
        RecordSkip(sets, ex, runs, steps[..i], step, signature);
        continue;
      }
      var sig := signature(step);
      if sig in seen {
        RecordSkip(sets, ex, runs, steps[..i], step, signature);
        assert seen + {sig} == seen;
        continue;
      }
      RecordHit(sets, ex, runs, steps[..i], step, signature);
      seen := seen + {sig};
      sets := sets[sig := RunsOf(sets, sig) + [ri]];
      ex := ex[sig := NextSamples(SamplesOf(ex, sig), Exemplar(ri, step.seqNo, step.toolId))];
    }
    assert steps[..|steps|] == steps;
  }

  method RecordRuns(results: seq<Run>, signature: Step -> Str) returns (sets: RunSets, ex: Samples)
    ensures Recorded(sets, ex, results, signature)
  {
    sets, ex := map[], map[];
    for ri := 0 to |results|
      invariant Recorded(sets, ex, results[..ri], signature)
    {
      assert results[..ri + 1] == results[..ri] + [results[ri]];
      sets, ex := RecordRun(sets, ex, results[..ri], ri, results[ri], signature);
    }
    assert results[..|results|] == results;
  }

  lemma PatternPush(ps: seq<Pattern>, keys: seq<Str>, i: nat, p: Pattern)
    requires i < |keys| && Ascending(keys) && p.signature == keys[i]
    requires Ascending(PatternKeys(ps)) && forall k :: k in PatternKeys(ps) ==> k in keys[..i]
    ensures Ascending(PatternKeys(ps + [p])) && PatternKeys(ps + [p]) == PatternKeys(ps) + [keys[i]]
  {
    var r := PatternKeys(ps) + [keys[i]];
    assert PatternKeys(ps + [p]) == r;
    forall x, y | 0 <= x < y < |r| ensures Less(r[x], r[y]) {
      if y == |r| - 1 {
        var k := r[x];
        assert k in PatternKeys(ps);
        assert k in keys[..i];
        var j :| 0 <= j < i && keys[j] == k;
      }
    }
  }

  /** The patterns of the first keys. */
  ghost predicate Listing(ps: seq<Pattern>, keys: seq<Str>, results: seq<Run>, signature: Step -> Str) {
    && Ascending(PatternKeys(ps))
    && (forall sig :: sig in PatternKeys(ps) <==> sig in keys && |HitRuns(results, signature, sig)| >= 2)
    && (forall j :: 0 <= j < |ps| ==> ps[j] == PatternOf(results, signature, ps[j].signature))
  }

  lemma ListNext(ps: seq<Pattern>, keys: seq<Str>, i: nat, results: seq<Run>, signature: Step -> Str)
    requires i < |keys| && Ascending(keys) && Listing(ps, keys[..i], results, signature)
    ensures var hits := HitRuns(results, signature, keys[i]);
            Listing(if |hits| < 2 then ps else ps + [PatternOf(results, signature, keys[i])], keys[..i + 1], results, signature)
  {
    assert keys[..i + 1] == keys[..i] + [keys[i]];
    if |HitRuns(results, signature, keys[i])| >= 2 {
      PatternPush(ps, keys, i, PatternOf(results, signature, keys[i]));
    }
  }

  method ListPatterns(sets: RunSets, ex: Samples, ghost results: seq<Run>, ghost signature: Step -> Str) returns (patterns: seq<Pattern>)
    requires Recorded(sets, ex, results, signature)
    ensures IsRecurrence(patterns, results, signature)
  {
    var keys := SortedKeys(sets.Keys);
    patterns := [];
    for i := 0 to |keys|
      invariant Listing(patterns, keys[..i], results, signature)
    {
      var sig := keys[i];
      assert sig in Elements(keys);
      ListNext(patterns, keys, i, results, signature);
      assert RunsOf(sets, sig) == HitRuns(results, signature, sig);
      var runs := sets[sig];
      if |runs| < 2 {
        continue;
      }
      SortIdentity(runs, IntLe);
      patterns := patterns + [Pattern(sig, Sort(runs, IntLe), |runs|, SamplesOf(ex, sig))];
    }
    assert keys[..|keys|] == keys;
    forall sig | |HitRuns(results, signature, sig)| >= 2 ensures sig in keys {
      assert RunsOf(sets, sig) == HitRuns(results, signature, sig);
      assert sig in Elements(keys);
    }
  }

  method BuildRecurrence(results: seq<Run>, signature: Step -> Str) returns (patterns: seq<Pattern>)
    ensures IsRecurrence(patterns, results, signature)
  {
    var sets, ex := RecordRuns(results, signature);
    patterns := ListPatterns(sets, ex, results, signature);
  }

  /** A signature is listed iff it fails in two different runs, and its indices are exactly the runs where a step fails with it. */
  lemma RecurrenceMeans(ps: seq<Pattern>, runs: seq<Run>, signature: Step -> Str, sig: Str)
    requires IsRecurrence(ps, runs, signature)
    ensures sig in PatternKeys(ps) <==>
            exists a, b :: 0 <= a < b < |runs| && FirstHit(runs[a], signature, sig).Some? && FirstHit(runs[b], signature, sig).Some?
    ensures forall i :: 0 <= i < |ps| ==>
              forall r :: r in ps[i].runIndices <==>
                          0 <= r < |runs| && exists s :: s in runs[r] && Shows(s, signature, ps[i].signature)
  {
    var hits := HitRuns(runs, signature, sig);
    if |hits| >= 2 {
      assert hits[0] in hits && hits[1] in hits;
      assert hits[0] < hits[1];
    }
    if exists a, b :: 0 <= a < b < |runs| && FirstHit(runs[a], signature, sig).Some? && FirstHit(runs[b], signature, sig).Some? {
      var a, b :| 0 <= a < b < |runs| && FirstHit(runs[a], signature, sig).Some? && FirstHit(runs[b], signature, sig).Some?;
      assert a in hits && b in hits;
    }
    forall i, r | 0 <= i < |ps| && 0 <= r < |runs|
      ensures FirstHit(runs[r], signature, ps[i].signature).Some? <==> exists s :: s in runs[r] && Shows(s, signature, ps[i].signature)
    {
      FirstHitMeans(runs[r], signature, ps[i].signature);
    }
  }

  // ----- streaks

  /** s[i..j] counts up by one at every step. */
  ghost predicate Consecutive(s: seq<int>, i: int, j: int) {
    0 <= i < j <= |s| && forall k :: i < k < j ==> s[k] == s[k - 1] + 1
  }

  ghost predicate IsLongest(s: seq<int>, best: nat) {
    if s == [] then best == 0
    else (exists i, j :: Consecutive(s, i, j) && j - i == best) && forall i, j :: Consecutive(s, i, j) ==> j - i <= best
  }

  lemma StepInside(s: seq<int>, i: int, j: int, k: int)
    requires Consecutive(s, i, j) && 0 < k < |s|
    ensures i < k < j ==> s[k] == s[k - 1] + 1
  {
  }

  /** The longest stretch of consecutive integers. */
  method MaxConsecutiveStreak(indices: seq<int>) returns (best: nat)
    ensures IsLongest(indices, best)
  {
    if |indices| == 0 {
      return 0;
    }
    best := 1;
    var cur := 1;
    assert Consecutive(indices, 0, 1);
    for i := 1 to |indices|
      invariant 1 <= cur <= i && cur <= best
      invariant Consecutive(indices, i - cur, i)
      invariant i - cur > 0 ==> indices[i - cur] != indices[i - cur - 1] + 1
      invariant exists a, b :: Consecutive(indices, a, b) && b - a == best && b <= i
      invariant forall a, b :: Consecutive(indices, a, b) && b <= i ==> b - a <= best
    {
      ghost var before := cur;
      if indices[i] == indices[i - 1] + 1 {
        cur := cur + 1;
        assert Consecutive(indices, i + 1 - cur, i + 1);
        best := if best > cur then best else cur;
      } else {
        cur := 1;
        assert Consecutive(indices, i, i + 1);
      }
      forall a, b | Consecutive(indices, a, b) && b == i + 1 ensures b - a <= cur {
        if b - cur > 0 {
          StepInside(indices, a, b, b - cur);
        }
      }
    }
  }

  // ----- categories

  datatype PerRun = PerRun(runIndex: int, category: Str)
  datatype CategoryRow = CategoryRow(category: Str, runIndicesAscending: seq<int>, runsHitCount: nat, maxConsecutiveRunStreak: nat)

  const COMPLETE: Str := [99, 111, 109, 112, 108, 101, 116, 101]

  function InCategory(c: Str): PerRun -> bool { (r: PerRun) => r.category == c }

  function IndicesIn(perRun: seq<PerRun>, c: Str): seq<int> {
    Map((r: PerRun) => r.runIndex, Filter(InCategory(c), perRun))
  }

  function Categories(rows: seq<CategoryRow>): (r: seq<Str>)
    ensures |r| == |rows|
  {
    seq(|rows|, i requires 0 <= i < |rows| => rows[i].category)
  }

  /** The row states exactly the runs of its category, and their longest streak. */
  ghost predicate IsRow(row: CategoryRow, perRun: seq<PerRun>) {
    && AscendingInts(row.runIndicesAscending)
    && (forall i :: i in row.runIndicesAscending <==> i in IndicesIn(perRun, row.category))
    && row.runsHitCount == |row.runIndicesAscending|
    && IsLongest(row.runIndicesAscending, row.maxConsecutiveRunStreak)
  }

  ghost predicate AllRows(rows: seq<CategoryRow>, perRun: seq<PerRun>) {
    forall i :: 0 <= i < |rows| ==> IsRow(rows[i], perRun)
  }

  /** One row for each category in use other than "complete". */
  ghost predicate IsCategoryRecurrence(rows: seq<CategoryRow>, perRun: seq<PerRun>) {
    && Distinct(Categories(rows))
    && (forall c :: c in Categories(rows) <==> c != COMPLETE && IndicesIn(perRun, c) != [])
    && AllRows(rows, perRun)
  }

  ghost predicate ByCategory(byCat: map<Str, seq<int>>, keys: seq<Str>, perRun: seq<PerRun>) {
    && Distinct(keys) && (forall c :: c in keys <==> c in byCat)
    && (forall c :: c in byCat <==> c != COMPLETE && IndicesIn(perRun, c) != [])
    && (forall c :: c in byCat ==> byCat[c] == IndicesIn(perRun, c))
  }

  lemma IndicesStep(perRun: seq<PerRun>, r: PerRun, c: Str)
    ensures IndicesIn(perRun + [r], c) == IndicesIn(perRun, c) + if r.category == c then [r.runIndex] else []
  {
    FilterConcat(InCategory(c), perRun, [r]);
    assert [r][1..] == [];
  }

  lemma CategorySkipped(byCat: map<Str, seq<int>>, keys: seq<Str>, perRun: seq<PerRun>, r: PerRun)
    requires ByCategory(byCat, keys, perRun) && r.category == COMPLETE
    ensures ByCategory(byCat, keys, perRun + [r])
  {
    forall c ensures IndicesIn(perRun + [r], c) == IndicesIn(perRun, c) + if r.category == c then [r.runIndex] else [] {
      IndicesStep(perRun, r, c);
    }
  }

  lemma CategoryAdded(byCat: map<Str, seq<int>>, keys: seq<Str>, perRun: seq<PerRun>, r: PerRun)
    requires ByCategory(byCat, keys, perRun) && r.category != COMPLETE && r.category !in byCat
    ensures ByCategory(byCat[r.category := [r.runIndex]], keys + [r.category], perRun + [r])
  {
    var all := perRun + [r];
    assert r.category !in keys;
    assert Distinct(keys + [r.category]);
    forall c ensures IndicesIn(all, c) == IndicesIn(perRun, c) + if r.category == c then [r.runIndex] else [] {
      IndicesStep(perRun, r, c);
    }
    assert IndicesIn(perRun, r.category) == [];
  }

  lemma CategoryGrown(byCat: map<Str, seq<int>>, keys: seq<Str>, perRun: seq<PerRun>, r: PerRun)
    requires ByCategory(byCat, keys, perRun) && r.category != COMPLETE && r.category in byCat
    ensures ByCategory(byCat[r.category := byCat[r.category] + [r.runIndex]], keys, perRun + [r])
  {
    var all := perRun + [r];
    forall c ensures IndicesIn(all, c) == IndicesIn(perRun, c) + if r.category == c then [r.runIndex] else [] {
      IndicesStep(perRun, r, c);
    }
  }

  method GroupByCategory(perRun: seq<PerRun>) returns (byCat: map<Str, seq<int>>, keys: seq<Str>)
    ensures ByCategory(byCat, keys, perRun)
  {
    byCat, keys := map[], [];
    for i := 0 to |perRun|
      invariant ByCategory(byCat, keys, perRun[..i])
    {
      var r := perRun[i];
      assert perRun[..i + 1] == perRun[..i] + [r];
      if r.category == COMPLETE {
        CategorySkipped(byCat, keys, perRun[..i], r);
        continue;
      }
      if r.category in byCat {
        CategoryGrown(byCat, keys, perRun[..i], r);
        byCat := byCat[r.category := byCat[r.category] + [r.runIndex]];
      } else {
        CategoryAdded(byCat, keys, perRun[..i], r);
        byCat, keys := byCat[r.category := [r.runIndex]], keys + [r.category];
      }
    }
    assert perRun[..|perRun|] == perRun;
  }

  lemma DedupSorted(s: seq<int>)
    ensures AscendingInts(Sort(Dedup(s), IntLe)) && forall x :: x in Sort(Dedup(s), IntLe) <==> x in s
  {
    SortKeys(Dedup(s));
  }

  method RowFor(category: Str, indices: seq<int>, ghost perRun: seq<PerRun>) returns (row: CategoryRow)
    requires indices == IndicesIn(perRun, category)
    ensures row.category == category && IsRow(row, perRun)
  {
    var ascending := Sort(Dedup(indices), IntLe);
    DedupSorted(indices);
    var streak := MaxConsecutiveStreak(ascending);
    row := CategoryRow(category, ascending, |ascending|, streak);
  }

  function RowOrder(locale: (Str, Str) -> bool): (CategoryRow, CategoryRow) -> bool {
    (a: CategoryRow, b: CategoryRow) => locale(a.category, b.category)
  }

  lemma RowsInOrder(list: seq<CategoryRow>, locale: (Str, Str) -> bool)
    requires TotalPreorder(locale)
    ensures Sorted(Categories(Sort(list, RowOrder(locale))), locale)
  {
    var le := RowOrder(locale);
    forall a, b, c ensures le(a, b) || le(b, a)
                   ensures le(a, b) && le(b, c) ==> le(a, c) {
      assert locale(a.category, b.category) || locale(b.category, a.category);
      assert locale(a.category, b.category) && locale(b.category, c.category) ==> locale(a.category, c.category);
    }
    SortSorted(list, le);
    var rows := Sort(list, le);
    forall i, j | 0 <= i < j < |rows| ensures locale(rows[i].category, rows[j].category) {
      assert le(rows[i], rows[j]);
    }
  }

  method BuildActionableCategoryRecurrence(perRun: seq<PerRun>, locale: (Str, Str) -> bool) returns (rows: seq<CategoryRow>)
    ensures IsCategoryRecurrence(rows, perRun)
    ensures TotalPreorder(locale) ==> Sorted(Categories(rows), locale)
  {
    var byCat, keys := GroupByCategory(perRun);
    var list: seq<CategoryRow> := [];
    for i := 0 to |keys|
      invariant Categories(list) == keys[..i] && AllRows(list, perRun)
    {
      assert keys[i] in keys;
      var row := RowFor(keys[i], byCat[keys[i]], perRun);
      assert Categories(list + [row]) == Categories(list) + [keys[i]] == keys[..i + 1];
      list := list + [row];
    }
    assert keys[..|keys|] == keys;
    rows := Sort(list, RowOrder(locale));
    RowsSorted(list, rows, RowOrder(locale), perRun);
    if TotalPreorder(locale) {
      RowsInOrder(list, locale);
    }
  }

  lemma {:induction false} DistinctCategories(list: seq<CategoryRow>)
    requires Distinct(Categories(list))
    ensures Distinct(list)
  {
    forall i, j | 0 <= i < j < |list| ensures list[i] != list[j] {
      assert Categories(list)[i] != Categories(list)[j];
    }
  }

  lemma SortedCategories(list: seq<CategoryRow>, rows: seq<CategoryRow>, le: (CategoryRow, CategoryRow) -> bool)
    requires rows == Sort(list, le) && Distinct(Categories(list))
    ensures Distinct(Categories(rows))
  {
    SortContents(list, le);
    DistinctCategories(list);
    SortDistinct(list, le);
    var cats, sorted := Categories(list), Categories(rows);
    forall i, j | 0 <= i < j < |rows| ensures sorted[i] != sorted[j] {
      var a, b := rows[i], rows[j];
      assert a in rows && b in rows && a != b;
      assert a in list && b in list;
      var x :| 0 <= x < |list| && list[x] == a;
      var y :| 0 <= y < |list| && list[y] == b;
      assert cats[x] != cats[y];
    }
  }

  lemma SameCategories(list: seq<CategoryRow>, rows: seq<CategoryRow>)
    requires forall r :: r in list ==> r in rows
    ensures forall c :: c in Categories(list) ==> c in Categories(rows)
  {
    forall c | c in Categories(list) ensures c in Categories(rows) {
      var j :| 0 <= j < |list| && Categories(list)[j] == c;
      var row := list[j];
      assert row in list;
      var i :| 0 <= i < |rows| && rows[i] == row;
      assert Categories(rows)[i] == c;
    }
  }

  lemma RowsSorted(list: seq<CategoryRow>, rows: seq<CategoryRow>, le: (CategoryRow, CategoryRow) -> bool, perRun: seq<PerRun>)
    requires rows == Sort(list, le) && IsCategoryRecurrence(list, perRun)
    ensures IsCategoryRecurrence(rows, perRun)
  {
    SortContents(list, le);
    SortedCategories(list, rows, le);
    SameCategories(list, rows);
    SameCategories(rows, list);
    forall i | 0 <= i < |rows| ensures IsRow(rows[i], perRun) {
      var r := rows[i];
      assert r in rows;
      assert r in list;
      var j :| 0 <= j < |list| && list[j] == r;
      assert IsRow(list[j], perRun);
    }
  }
}
