/** Paths cited in a plan: fences, obligation lines, qualification and pattern preflight (src/planTransitionPathHarvest.ts). */
module PathHarvest {
  import opened Utf16
  import opened LogicalSteps

  const NEWLINE: Unit := 10
  const SLASH: Unit := 47
  const DOT: Unit := 46
  const BACKTICK: Unit := 96

  predicate IsSpace(c: Unit) {
    9 <= c <= 13 || c == 32 || c == 0xA0 || c == 0x1680 || 0x2000 <= c <= 0x200A || c == 0x2028 || c == 0x2029
    || c == 0x202F || c == 0x205F || c == 0x3000 || c == 0xFEFF
  }

  // ----- fences

  function DropWord(t: Str): Str { if t == [] || IsSpace(t[0]) then t else DropWord(t[1..]) }

  predicate Blank(t: Str) { forall i :: 0 <= i < |t| ==> IsSpace(t[i]) }

  predicate StartsFence(line: Str) { |line| >= 3 && line[..3] == [BACKTICK, BACKTICK, BACKTICK] }

  /** /^```\S*\s*$/ */
  predicate IsOpen(line: Str) { StartsFence(line) && Blank(DropWord(line[3..])) }

  /** /^```\s*$/ */
  predicate IsClose(line: Str) { StartsFence(line) && Blank(line[3..]) }

  /** The lines outside fenced blocks; a fence that is never closed reaches to the end. */
  function Outside(lines: seq<Str>, inFence: bool): (r: seq<Str>)
    ensures forall i :: 0 <= i < |r| ==> !IsOpen(r[i]) && r[i] in lines
  {
    if lines == [] then []
    else if inFence then Outside(lines[1..], !IsClose(lines[0]))
    else if IsOpen(lines[0]) then Outside(lines[1..], true)
    else [lines[0]] + Outside(lines[1..], false)
  }

  /** The inner loop: past the closing fence, or to the end if there is none. */
  method SkipFence(lines: seq<Str>, start: nat) returns (i: nat)
    requires start <= |lines|
    ensures start <= i <= |lines| && Outside(lines[start..], true) == Outside(lines[i..], false)
  {
    i := start;
    while i < |lines|
      invariant start <= i <= |lines|
      invariant Outside(lines[start..], true) == Outside(lines[i..], true)
    {
      assert lines[i..][1..] == lines[i + 1..];
      if IsClose(lines[i]) {
        i := i + 1;
        return;
      }
      i := i + 1;
    }
    assert lines[i..] == [];
  }

  method StripAllFencedBlocks(section: Str) returns (r: Str, ghost fences: seq<Fence>, ghost kept: seq<nat>)
    ensures IsFences(fences, Split(section, NEWLINE)) && AreOutside(kept, fences, |Split(section, NEWLINE)|)
    ensures r == Joined(LinesAt(Split(section, NEWLINE), kept), NEWLINE)
    ensures r == Joined(Outside(Split(section, NEWLINE), false), NEWLINE)
  {
    var lines := Split(section, NEWLINE);
    var out: seq<Str> := [];
    var i := 0;
    assert lines[0..] == lines;
    while i < |lines|
      invariant i <= |lines|
      invariant Outside(lines, false) == out + Outside(lines[i..], false)
      decreases |lines| - i
    {
      assert lines[i..][1..] == lines[i + 1..];
      if !IsOpen(lines[i]) {
        assert out + ([lines[i]] + Outside(lines[i + 1..], false)) == out + [lines[i]] + Outside(lines[i + 1..], false);
        out := out + [lines[i]];
        i := i + 1;
        continue;
      }
      i := SkipFence(lines, i + 1);
    }
    assert lines[i..] == [] && out + [] == out;
    r := Joined(out, NEWLINE);
    fences, kept := KeptMeans(lines);
  }

  // ----- obligation sections

  /** Headings and section titles, as the regular expressions of the module decide them. */
  datatype Titles = Titles(heading: Str -> Option<Str>, obligation: Str -> bool, testing: Str -> bool)

  datatype Visit = Visit(line: Str, sectionIsTesting: bool)

  /** The callbacks of the walk over lines, in order. */
  function Visits(t: Titles, lines: seq<Str>, inObligation: bool, title: Str, inFence: bool): seq<Visit> {
    if lines == [] then []
    else if inFence then Visits(t, lines[1..], inObligation, title, !IsClose(lines[0]))
    else if IsOpen(lines[0]) then Visits(t, lines[1..], inObligation, title, true)
    else
      match t.heading(lines[0])
      case Some(h) => Visits(t, lines[1..], t.obligation(h), h, false)
      case None =>
        (if inObligation then [Visit(lines[0], t.testing(title))] else []) + Visits(t, lines[1..], inObligation, title, false)
  }

  // ----- what the walk visits, by positions

  /** A fenced block from its opening to its closing line, or to the end of the text if it is never closed. */
  datatype Fence = Fence(open: nat, close: nat)

  /** Where the next fence may open: behind the last one. */
  function EndOf(fences: seq<Fence>): nat { if fences == [] then 0 else fences[|fences| - 1].close + 1 }

  /** The block opens at the first opening line from a position on, and closes at the first closing line after that. */
  ghost predicate IsFence(f: Fence, lines: seq<Str>, from: nat) {
    && from <= f.open < f.close <= |lines| && IsOpen(lines[f.open])
    && (forall i :: from <= i < f.open ==> !IsOpen(lines[i]))
    && (f.close < |lines| ==> IsClose(lines[f.close]))
    && forall i :: f.open < i < f.close ==> !IsClose(lines[i])
  }

  ghost predicate NoneOpens(lines: seq<Str>, from: nat, to: nat) {
    forall i :: from <= i < to && i < |lines| ==> !IsOpen(lines[i])
  }

  /** The first fences of the text, in order: each is the next one behind those before it. */
  ghost predicate AllFences(fences: seq<Fence>, lines: seq<Str>) {
    fences == []
    || (var front := fences[..|fences| - 1]; AllFences(front, lines) && IsFence(fences[|fences| - 1], lines, EndOf(front)))
  }

  /** All fences of the text. */
  ghost predicate IsFences(fences: seq<Fence>, lines: seq<Str>) {
    AllFences(fences, lines) && NoneOpens(lines, EndOf(fences), |lines|)
  }

  predicate Covers(f: Fence, k: nat) { f.open <= k <= f.close }

  ghost predicate Inside(fences: seq<Fence>, k: nat) { exists n :: 0 <= n < |fences| && Covers(fences[n], k) }

  /** h is the last heading before line k that lies outside the fences. */
  ghost predicate LastHeading(t: Titles, lines: seq<Str>, fences: seq<Fence>, h: nat, k: nat) {
    && h < k <= |lines| && !Inside(fences, h) && t.heading(lines[h]).Some?
    && forall j: nat :: h < j < k && !Inside(fences, j) ==> t.heading(lines[j]).None?
  }

  /** Line k lies outside the fences, is no heading, and is in the section of an obligation. */
  ghost predicate Visited(t: Titles, lines: seq<Str>, fences: seq<Fence>, k: nat) {
    && k < |lines| && !Inside(fences, k) && t.heading(lines[k]).None?
    && exists h: nat :: LastHeading(t, lines, fences, h, k) && t.obligation(t.heading(lines[h]).value)
  }

  ghost predicate InTesting(t: Titles, lines: seq<Str>, fences: seq<Fence>, k: nat) {
    k <= |lines| && exists h: nat :: LastHeading(t, lines, fences, h, k) && t.testing(t.heading(lines[h]).value)
  }

  /** The visited positions among the first n lines, each once and in order, and what is said of each. */
  ghost predicate IsWalk(t: Titles, lines: seq<Str>, fences: seq<Fence>, n: nat, positions: seq<nat>, visits: seq<Visit>) {
    && |visits| == |positions|
    && (forall i, j :: 0 <= i < j < |positions| ==> positions[i] < positions[j])
    && (forall k: nat :: k in positions <==> k < n && Visited(t, lines, fences, k))
    && forall i :: 0 <= i < |positions| && positions[i] < |lines| ==>
         visits[i].line == lines[positions[i]] && (visits[i].sectionIsTesting <==> InTesting(t, lines, fences, positions[i]))
  }

  lemma OneMoreFence(fences: seq<Fence>, f: Fence, lines: seq<Str>)
    requires AllFences(fences, lines) && IsFence(f, lines, EndOf(fences))
    ensures AllFences(fences + [f], lines) && EndOf(fences + [f]) == f.close + 1
  {
    assert (fences + [f])[..|fences + [f]| - 1] == fences;
  }

  lemma FirstOpen(lines: seq<Str>, from: nat) returns (open: nat)
    requires !NoneOpens(lines, from, |lines|)
    ensures from <= open < |lines| && IsOpen(lines[open]) && NoneOpens(lines, from, open)
  {
    open := from;
    while open < |lines| && !IsOpen(lines[open])
      invariant from <= open && NoneOpens(lines, from, open)
      decreases |lines| - open
    {
      open := open + 1;
    }
  }

  lemma FirstClose(lines: seq<Str>, from: nat) returns (close: nat)
    requires from <= |lines|
    ensures from <= close <= |lines| && (close < |lines| ==> IsClose(lines[close]))
    ensures forall i :: from <= i < close ==> !IsClose(lines[i])
  {
    close := from;
    while close < |lines| && !IsClose(lines[close])
      invariant from <= close <= |lines| && forall i :: from <= i < close ==> !IsClose(lines[i])
    {
      close := close + 1;
    }
  }

  /** Every text has its fences. */
  lemma {:induction false} FencesFrom(lines: seq<Str>, before: seq<Fence>) returns (fences: seq<Fence>)
    requires AllFences(before, lines)
    ensures IsFences(fences, lines)
    decreases |lines| - EndOf(before)
  {
    var from := EndOf(before);
    fences := before;
    if !NoneOpens(lines, from, |lines|) {
      var open := FirstOpen(lines, from);
      var close := FirstClose(lines, open + 1);
      OneMoreFence(before, Fence(open, close), lines);
      fences := FencesFrom(lines, before + [Fence(open, close)]);
    }
  }

  lemma FenceOpens(f: Fence, lines: seq<Str>, from: nat)
    requires IsFence(f, lines, from)
    ensures !NoneOpens(lines, from, |lines|)
  {
    assert IsOpen(lines[f.open]);
  }

  lemma {:induction false} FencePrefix(fences: seq<Fence>, lines: seq<Str>, n: nat)
    requires AllFences(fences, lines) && n <= |fences|
    ensures AllFences(fences[..n], lines) && (n < |fences| ==> IsFence(fences[n], lines, EndOf(fences[..n])))
    decreases |fences|
  {
    if n == |fences| {
      assert fences[..n] == fences;
    } else {
      var front := fences[..|fences| - 1];
      FencePrefix(front, lines, n);
      assert front[..n] == fences[..n];
    }
  }

  /** Behind all fences of a text there is none. */
  lemma NoFenceBehind(a: seq<Fence>, b: seq<Fence>, lines: seq<Str>)
    requires IsFences(a, lines) && AllFences(b, lines) && |a| <= |b| && a == b[..|a|]
    ensures |a| == |b|
  {
    FencePrefix(b, lines, |a|);
    if |a| < |b| { FenceOpens(b[|a|], lines, EndOf(a)); }
  }

  lemma NextFence(a: seq<Fence>, b: seq<Fence>, lines: seq<Str>, n: nat)
    requires AllFences(a, lines) && AllFences(b, lines) && n < |a| && n < |b| && a[..n] == b[..n]
    ensures a[n] == b[n]
  {
    FencePrefix(a, lines, n);
    FencePrefix(b, lines, n);
    SameFence(a[n], b[n], lines, EndOf(a[..n]));
  }

  lemma TakeOneMore<T>(a: seq<T>, b: seq<T>, n: nat)
    requires n < |a| && n < |b| && a[..n] == b[..n] && a[n] == b[n]
    ensures a[..n + 1] == b[..n + 1]
  {
    assert a[..n + 1] == a[..n] + [a[n]] && b[..n + 1] == b[..n] + [b[n]];
  }

  /** The fences of a text are determined by it. */
  lemma {:induction false} FencesUnique(a: seq<Fence>, b: seq<Fence>, lines: seq<Str>, n: nat)
    requires IsFences(a, lines) && IsFences(b, lines) && n <= |a| && n <= |b| && a[..n] == b[..n]
    ensures a == b
    decreases |a| - n
  {
    assert a[..|a|] == a && b[..|b|] == b;
    if n == |a| {
      NoFenceBehind(a, b, lines);
    } else if n == |b| {
      NoFenceBehind(b, a, lines);
    } else {
      NextFence(a, b, lines, n);
      TakeOneMore(a, b, n);
      FencesUnique(a, b, lines, n + 1);
    }
  }

  lemma SameFence(f: Fence, g: Fence, lines: seq<Str>, from: nat)
    requires IsFence(f, lines, from) && IsFence(g, lines, from)
    ensures f == g
  {
  }

  // ----- the walk is what the positions say

  /** Line k is inside a fence that opens before it: the state of the walk when it comes to line k. */
  ghost predicate Within(fences: seq<Fence>, k: nat) { exists n :: 0 <= n < |fences| && fences[n].open < k <= fences[n].close }

  lemma FenceSplit(fences: seq<Fence>, k: nat)
    requires fences != []
    ensures var front, f := fences[..|fences| - 1], fences[|fences| - 1];
            && (Inside(fences, k) <==> Inside(front, k) || Covers(f, k))
            && (Within(fences, k) <==> Within(front, k) || f.open < k <= f.close)
  {
    var front, f := fences[..|fences| - 1], fences[|fences| - 1];
    if Inside(front, k) {
      var n :| 0 <= n < |front| && Covers(front[n], k);
      assert Covers(fences[n], k);
    }
    if Inside(fences, k) {
      var n :| 0 <= n < |fences| && Covers(fences[n], k);
      assert n < |front| ==> Covers(front[n], k);
    }
    if Within(front, k) {
      var n :| 0 <= n < |front| && front[n].open < k <= front[n].close;
      assert fences[n].open < k <= fences[n].close;
    }
    if Within(fences, k) {
      var n :| 0 <= n < |fences| && fences[n].open < k <= fences[n].close;
      assert n < |front| ==> front[n].open < k <= front[n].close;
    }
  }

  lemma {:induction false} FencesBelow(fences: seq<Fence>, lines: seq<Str>, k: nat)
    requires AllFences(fences, lines) && k >= EndOf(fences)
    ensures !Inside(fences, k) && !Within(fences, k)
  {
    if fences != [] {
      FencesBelow(fences[..|fences| - 1], lines, k);
      FenceSplit(fences, k);
    }
  }

  ghost predicate Steps(fences: seq<Fence>, lines: seq<Str>, k: nat)
    requires k < |lines|
  {
    && (Inside(fences, k) <==> Within(fences, k) || IsOpen(lines[k]))
    && (Within(fences, k + 1) <==> if Within(fences, k) then !IsClose(lines[k]) else IsOpen(lines[k]))
  }

  lemma {:induction false} FenceSteps(fences: seq<Fence>, lines: seq<Str>, k: nat)
    requires AllFences(fences, lines) && k < EndOf(fences) && k < |lines|
    ensures Steps(fences, lines, k)
  {
    var front, f := fences[..|fences| - 1], fences[|fences| - 1];
    FenceSplit(fences, k);
    FenceSplit(fences, k + 1);
    if k < EndOf(front) {
      FenceSteps(front, lines, k);
    } else {
      FencesBelow(front, lines, k);
      FencesBelow(front, lines, k + 1);
    }
  }

  /** How the walk's fence state changes at a line, and whether the line is inside. */
  lemma FenceStep(fences: seq<Fence>, lines: seq<Str>, k: nat)
    requires IsFences(fences, lines) && k < |lines|
    ensures Steps(fences, lines, k)
  {
    if k < EndOf(fences) {
      FenceSteps(fences, lines, k);
    } else {
      FencesBelow(fences, lines, k);
      FencesBelow(fences, lines, k + 1);
    }
  }

  /** The positions outside all fences, each once and in order. */
  ghost predicate AreOutside(kept: seq<nat>, fences: seq<Fence>, n: nat) {
    && (forall i, j :: 0 <= i < j < |kept| ==> kept[i] < kept[j])
    && forall k: nat :: k in kept <==> k < n && !Inside(fences, k)
  }

  function LinesAt(lines: seq<Str>, kept: seq<nat>): (r: seq<Str>)
    ensures |r| == |kept|
  {
    seq(|kept|, i requires 0 <= i < |kept| => if kept[i] < |lines| then lines[kept[i]] else [])
  }

  lemma KeepOne(kept: seq<nat>, fences: seq<Fence>, lines: seq<Str>, k: nat)
    requires AreOutside(kept, fences, k) && k < |lines|
    ensures !Inside(fences, k) ==> AreOutside(kept + [k], fences, k + 1) && LinesAt(lines, kept + [k]) == LinesAt(lines, kept) + [lines[k]]
    ensures Inside(fences, k) ==> AreOutside(kept, fences, k + 1)
  {
    var more := kept + [k];
    forall x: nat ensures x in more <==> x in kept || x == k {}
    forall i, j | 0 <= i < j < |more| ensures more[i] < more[j] {
      assert i < |kept| ==> kept[i] in kept;
    }
  }

  lemma KeepStep(lines: seq<Str>, fences: seq<Fence>, k: nat, inFence: bool, kept: seq<Str>)
    requires IsFences(fences, lines) && k < |lines| && (inFence <==> Within(fences, k))
    ensures kept + Outside(lines[k..], inFence) ==
            (if Inside(fences, k) then kept else kept + [lines[k]]) + Outside(lines[k + 1..], Within(fences, k + 1))
  {
    FenceStep(fences, lines, k);
    assert lines[k..][1..] == lines[k + 1..];
    var rest := Outside(lines[k + 1..], false);
    assert kept + ([lines[k]] + rest) == kept + [lines[k]] + rest;
  }

  /** What stripping keeps are the lines outside all fences. */
  lemma OutsideMeans(lines: seq<Str>, fences: seq<Fence>) returns (kept: seq<nat>)
    requires IsFences(fences, lines)
    ensures AreOutside(kept, fences, |lines|) && LinesAt(lines, kept) == Outside(lines, false)
  {
    kept := [];
    var inFence, k := false, 0;
    assert lines[0..] == lines;
    while k < |lines|
      invariant k <= |lines| && (inFence <==> Within(fences, k)) && AreOutside(kept, fences, k)
      invariant LinesAt(lines, kept) + Outside(lines[k..], inFence) == Outside(lines, false)
    {
      KeepOne(kept, fences, lines, k);
      KeepStep(lines, fences, k, inFence, LinesAt(lines, kept));
      if !Inside(fences, k) {
        kept := kept + [k];
      }
      k := k + 1;
      inFence := Within(fences, k);
    }
    assert lines[|lines|..] == [];
    assert LinesAt(lines, kept) + [] == LinesAt(lines, kept);
  }

  lemma HeadingStays(t: Titles, lines: seq<Str>, fences: seq<Fence>, h: nat, k: nat)
    requires k < |lines| && (Inside(fences, k) || t.heading(lines[k]).None?)
    ensures LastHeading(t, lines, fences, h, k + 1) <==> LastHeading(t, lines, fences, h, k)
  {
  }

  lemma HeadingHere(t: Titles, lines: seq<Str>, fences: seq<Fence>, h: nat, k: nat)
    requires k < |lines| && !Inside(fences, k) && t.heading(lines[k]).Some?
    ensures LastHeading(t, lines, fences, h, k + 1) <==> h == k
  {
  }

  /** The walk's section state: the title of the last heading, and whether it is one of an obligation. */
  ghost predicate SectionState(t: Titles, lines: seq<Str>, fences: seq<Fence>, k: nat, inObligation: bool, title: Str) {
    && (inObligation <==> exists h: nat :: LastHeading(t, lines, fences, h, k) && t.obligation(t.heading(lines[h]).value))
    && forall h: nat :: LastHeading(t, lines, fences, h, k) ==> title == t.heading(lines[h]).value
  }

  lemma SectionStays(t: Titles, lines: seq<Str>, fences: seq<Fence>, k: nat, inObligation: bool, title: Str)
    requires k < |lines| && (Inside(fences, k) || t.heading(lines[k]).None?) && SectionState(t, lines, fences, k, inObligation, title)
    ensures SectionState(t, lines, fences, k + 1, inObligation, title)
  {
    forall h: nat ensures LastHeading(t, lines, fences, h, k + 1) <==> LastHeading(t, lines, fences, h, k) {
      HeadingStays(t, lines, fences, h, k);
    }
  }

  lemma SectionStarts(t: Titles, lines: seq<Str>, fences: seq<Fence>, k: nat)
    requires k < |lines| && !Inside(fences, k) && t.heading(lines[k]).Some?
    ensures var title := t.heading(lines[k]).value; SectionState(t, lines, fences, k + 1, t.obligation(title), title)
  {
    var next := k + 1;
    forall h: nat ensures LastHeading(t, lines, fences, h, next) ==> h == k {
      HeadingHere(t, lines, fences, h, k);
    }
    HeadingHere(t, lines, fences, k, k);
  }

  lemma WalkPasses(t: Titles, lines: seq<Str>, fences: seq<Fence>, k: nat, positions: seq<nat>, visits: seq<Visit>)
    requires IsWalk(t, lines, fences, k, positions, visits) && !Visited(t, lines, fences, k)
    ensures IsWalk(t, lines, fences, k + 1, positions, visits)
  {
  }

  lemma WalkVisits(t: Titles, lines: seq<Str>, fences: seq<Fence>, k: nat, positions: seq<nat>, visits: seq<Visit>, title: Str)
    requires IsWalk(t, lines, fences, k, positions, visits) && Visited(t, lines, fences, k)
    requires SectionState(t, lines, fences, k, true, title)
    ensures IsWalk(t, lines, fences, k + 1, positions + [k], visits + [Visit(lines[k], t.testing(title))])
  {
    var more := positions + [k];
    forall i, j | 0 <= i < j < |more| ensures more[i] < more[j] {
      assert i < |positions| ==> positions[i] in positions;
    }
    forall x: nat ensures x in more <==> x < k + 1 && Visited(t, lines, fences, x) {
      assert x in more <==> x in positions || x == k;
    }
    assert InTesting(t, lines, fences, k) <==> t.testing(title);
  }

  /** The walk when it comes to line k, and what remains of its callbacks. */
  datatype State = State(inObligation: bool, title: Str, inFence: bool, positions: seq<nat>, visits: seq<Visit>)

  ghost predicate Walking(t: Titles, lines: seq<Str>, fences: seq<Fence>, k: nat, w: State) {
    && k <= |lines| && (w.inFence <==> Within(fences, k))
    && SectionState(t, lines, fences, k, w.inObligation, w.title)
    && IsWalk(t, lines, fences, k, w.positions, w.visits)
  }

  function Remaining(t: Titles, lines: seq<Str>, k: nat, w: State): seq<Visit>
    requires k <= |lines|
  {
    w.visits + Visits(t, lines[k..], w.inObligation, w.title, w.inFence)
  }

  lemma WalkInside(t: Titles, lines: seq<Str>, fences: seq<Fence>, k: nat, w: State)
    requires IsFences(fences, lines) && k < |lines| && Walking(t, lines, fences, k, w) && Inside(fences, k)
    ensures var next := w.(inFence := if w.inFence then !IsClose(lines[k]) else true);
            Walking(t, lines, fences, k + 1, next) && Remaining(t, lines, k + 1, next) == Remaining(t, lines, k, w)
  {
    assert lines[k..][1..] == lines[k + 1..];
    FenceStep(fences, lines, k);
    SectionStays(t, lines, fences, k, w.inObligation, w.title);
    WalkPasses(t, lines, fences, k, w.positions, w.visits);
  }

  lemma WalkHeading(t: Titles, lines: seq<Str>, fences: seq<Fence>, k: nat, w: State)
    requires IsFences(fences, lines) && k < |lines| && Walking(t, lines, fences, k, w)
    requires !Inside(fences, k) && t.heading(lines[k]).Some?
    ensures var title := t.heading(lines[k]).value;
            var next := w.(inObligation := t.obligation(title), title := title);
            Walking(t, lines, fences, k + 1, next) && Remaining(t, lines, k + 1, next) == Remaining(t, lines, k, w)
  {
    assert lines[k..][1..] == lines[k + 1..];
    FenceStep(fences, lines, k);
    SectionStarts(t, lines, fences, k);
    WalkPasses(t, lines, fences, k, w.positions, w.visits);
  }

  lemma WalkLine(t: Titles, lines: seq<Str>, fences: seq<Fence>, k: nat, w: State)
    requires IsFences(fences, lines) && k < |lines| && Walking(t, lines, fences, k, w)
    requires !Inside(fences, k) && t.heading(lines[k]).None?
    ensures var next := if !w.inObligation then w
                        else w.(positions := w.positions + [k], visits := w.visits + [Visit(lines[k], t.testing(w.title))]);
            Walking(t, lines, fences, k + 1, next) && Remaining(t, lines, k + 1, next) == Remaining(t, lines, k, w)
  {
    assert lines[k..][1..] == lines[k + 1..];
    FenceStep(fences, lines, k);
    SectionStays(t, lines, fences, k, w.inObligation, w.title);
    if w.inObligation {
      WalkVisits(t, lines, fences, k, w.positions, w.visits, w.title);
      var v, rest := [Visit(lines[k], t.testing(w.title))], Visits(t, lines[k + 1..], w.inObligation, w.title, false);
      assert w.visits + (v + rest) == w.visits + v + rest;
    } else {
      WalkPasses(t, lines, fences, k, w.positions, w.visits);
    }
  }

  lemma WalkStep(t: Titles, lines: seq<Str>, fences: seq<Fence>, k: nat, w: State) returns (next: State)
    requires IsFences(fences, lines) && k < |lines| && Walking(t, lines, fences, k, w)
    ensures Walking(t, lines, fences, k + 1, next) && Remaining(t, lines, k + 1, next) == Remaining(t, lines, k, w)
  {
    if Inside(fences, k) {
      WalkInside(t, lines, fences, k, w);
      next := w.(inFence := if w.inFence then !IsClose(lines[k]) else true);
    } else if t.heading(lines[k]).Some? {
      WalkHeading(t, lines, fences, k, w);
      var title := t.heading(lines[k]).value;
      next := w.(inObligation := t.obligation(title), title := title);
    } else {
      WalkLine(t, lines, fences, k, w);
      next := if !w.inObligation then w
              else w.(positions := w.positions + [k], visits := w.visits + [Visit(lines[k], t.testing(w.title))]);
    }
  }

  /** The walk over the remaining lines. */
  lemma {:induction false} WalkOn(t: Titles, lines: seq<Str>, fences: seq<Fence>, k: nat, w: State) returns (last: State)
    requires IsFences(fences, lines) && Walking(t, lines, fences, k, w)
    ensures Walking(t, lines, fences, |lines|, last) && last.visits == Remaining(t, lines, k, w)
    decreases |lines| - k
  {
    if k == |lines| {
      assert lines[k..] == [] && w.visits + [] == w.visits;
      last := w;
    } else {
      var next := WalkStep(t, lines, fences, k, w);
      last := WalkOn(t, lines, fences, k + 1, next);
    }
  }

  lemma WalkStarts(t: Titles, lines: seq<Str>, fences: seq<Fence>)
    ensures var w := State(false, [], false, [], []);
            Walking(t, lines, fences, 0, w) && Remaining(t, lines, 0, w) == Visits(t, lines, false, [], false)
  {
    assert lines[0..] == lines;
    assert [] + Visits(t, lines, false, [], false) == Visits(t, lines, false, [], false);
  }

  /** The callbacks of the walk are the visited lines by position, each once and in order. */
  lemma VisitsMean(t: Titles, lines: seq<Str>, fences: seq<Fence>) returns (positions: seq<nat>)
    requires IsFences(fences, lines)
    ensures IsWalk(t, lines, fences, |lines|, positions, Visits(t, lines, false, [], false))
  {
    WalkStarts(t, lines, fences);
    var last := WalkOn(t, lines, fences, 0, State(false, [], false, [], []));
    positions := last.positions;
  }

  lemma WalkMeans(t: Titles, lines: seq<Str>) returns (fences: seq<Fence>, positions: seq<nat>)
    ensures IsFences(fences, lines) && IsWalk(t, lines, fences, |lines|, positions, Visits(t, lines, false, [], false))
  {
    fences := FencesFrom(lines, []);
    positions := VisitsMean(t, lines, fences);
  }

  lemma KeptMeans(lines: seq<Str>) returns (fences: seq<Fence>, kept: seq<nat>)
    ensures IsFences(fences, lines) && AreOutside(kept, fences, |lines|) && LinesAt(lines, kept) == Outside(lines, false)
  {
    fences := FencesFrom(lines, []);
    kept := OutsideMeans(lines, fences);
  }

  method WalkObligationLines(t: Titles, body: Str)
    returns (visits: seq<Visit>, ghost fences: seq<Fence>, ghost positions: seq<nat>)
    ensures IsFences(fences, Split(body, NEWLINE))
    ensures IsWalk(t, Split(body, NEWLINE), fences, |Split(body, NEWLINE)|, positions, visits)
    ensures visits == Visits(t, Split(body, NEWLINE), false, [], false)
  {
    var lines := Split(body, NEWLINE);
    var inObligation := false;
    var currentTitle: Str := [];
    var inFence := false;
    visits := [];
    assert lines[0..] == lines;
    for i := 0 to |lines|
      invariant Visits(t, lines, false, [], false) == visits + Visits(t, lines[i..], inObligation, currentTitle, inFence)
    {
      var line := lines[i];
      assert lines[i..][1..] == lines[i + 1..];
      if inFence {
        if IsClose(line) { inFence := false; }
        continue;
      }
      if IsOpen(line) {
        inFence := true;
        continue;
      }
      var h2 := t.heading(line);
      if h2.Some? {
        inObligation := t.obligation(h2.value);
        currentTitle := h2.value;
        continue;
      }
      if !inObligation { continue; }
      visits := visits + [Visit(line, t.testing(currentTitle))];
    }
    assert lines[|lines|..] == [];
    fences, positions := WalkMeans(t, lines);
  }

  lemma {:induction false} OutsideVisits(t: Titles, lines: seq<Str>, inObligation: bool, title: Str, inFence: bool)
    ensures Visits(t, lines, inObligation, title, inFence) == Visits(t, Outside(lines, inFence), inObligation, title, false)
  {
    if lines != [] {
      var line, rest := lines[0], lines[1..];
      if inFence {
        OutsideVisits(t, rest, inObligation, title, !IsClose(line));
      } else if IsOpen(line) {
        OutsideVisits(t, rest, inObligation, title, true);
      } else {
        assert Outside(lines, false)[1..] == Outside(rest, false);
        match t.heading(line) {
          case Some(h) => OutsideVisits(t, rest, t.obligation(h), h, false);
          case None => OutsideVisits(t, rest, inObligation, title, false);
        }
      }
    }
  }

  /** Walking a body visits exactly the lines it visits after its fences are stripped, closed or not. */
  lemma StripKeepsVisits(t: Titles, body: Str)
    ensures var lines := Split(body, NEWLINE);
            Visits(t, lines, false, [], false) ==
            Visits(t, Split(Joined(Outside(lines, false), NEWLINE), NEWLINE), false, [], false)
  {
    var lines := Split(body, NEWLINE);
    var out := Outside(lines, false);
    OutsideVisits(t, lines, false, [], false);
    SplitParts(body, NEWLINE);
    forall i | 0 <= i < |out| ensures NEWLINE !in out[i] {
      var j :| 0 <= j < |lines| && lines[j] == out[i];
    }
    SplitJoined(out, NEWLINE);
    if out == [] {
      var none: seq<Str> := [[]];
      assert none[1..] == [];
      assert !IsOpen(none[0]);
    }
  }

  // ----- qualification

  const ROOTS: seq<Str> := [Ascii("src/"), Ascii("schemas/"), Ascii("examples/"), Ascii("docs/"), Ascii("test/"), Ascii("debug-ui/"), Ascii("plans/")]

  const EXTENSIONS: seq<Str> := [Ascii("ts"), Ascii("tsx"), Ascii("js"), Ascii("mjs"), Ascii("json"), Ascii("md"), Ascii("sql")]

  predicate StartsWith(s: Str, prefix: Str) { |prefix| <= |s| && s[..|prefix|] == prefix }

  /** Length of the root with its slash that s starts with, or zero. */
  function RootLength(s: Str, roots: seq<Str>): (n: nat)
    ensures n <= |s|
  {
    if roots == [] then 0 else if StartsWith(s, roots[0]) then |roots[0]| else RootLength(s, roots[1..])
  }

  function RootLen(s: Str): nat { RootLength(s, ROOTS) }

  /** The anchors in s, which lies at the given offset and not at the start: the start of the last one, or best. */
  function Scan(s: Str, offset: nat, best: int): int
    decreases |s|
  {
    if s == [] then best
    else if s[0] == SLASH && RootLen(s[1..]) > 0 then
      var n := 1 + RootLength(s[1..], ROOTS);
      Scan(s[n..], offset + n, offset + 1)
    else Scan(s[1..], offset + 1, best)
  }

  /** Start of the last match of the anchor expression, or -1; matches do not overlap. */
  function LastAnchor(r: Str): int {
    var n := RootLength(r, ROOTS);
    if n > 0 then Scan(r[n..], n, 0) else Scan(r, 0, -1)
  }

  function Lower(t: Str): (r: Str)
    ensures |r| == |t|
  {
    seq(|t|, i requires 0 <= i < |t| => if 65 <= t[i] <= 90 then t[i] + 32 else t[i])
  }

  predicate PathUnit(c: Unit) { 97 <= c <= 122 || 65 <= c <= 90 || 48 <= c <= 57 || c == 95 || c == 46 || c == 45 }

  predicate Has2(s: Str, a: Unit, b: Unit) { exists i :: 0 <= i < |s| - 1 && s[i] == a && s[i + 1] == b }

  /** Non-empty segments of path units, separated by single slashes. */
  predicate Segmented(s: Str) {
    && s != [] && s[0] != SLASH && s[|s| - 1] != SLASH
    && (forall i :: 0 <= i < |s| ==> PathUnit(s[i]) || s[i] == SLASH)
    && !Has2(s, SLASH, SLASH)
  }

  function LastDot(s: Str): (i: int)
    ensures -1 <= i < |s|
    ensures i >= 0 ==> s[i] == DOT && DOT !in s[i + 1..]
    ensures i == -1 ==> DOT !in s
  {
    if s == [] then -1
    else if s[|s| - 1] == DOT then |s| - 1
    else
      var i := LastDot(s[..|s| - 1]);
      assert s == s[..|s| - 1] + [s[|s| - 1]];
      assert i >= 0 ==> s[i + 1..] == s[..|s| - 1][i + 1..] + [s[|s| - 1]];
      i
  }

  /** The qualified path expression: a root, segments, and an extension after the last dot. */
  predicate Qualified(p: Str) {
    var i := LastDot(p);
    && i >= 0 && i + 1 < |p|
    && RootLen(p[..i]) > 0 && Segmented(p[RootLength(p[..i], ROOTS)..i])
  }

  predicate Trimmable(c: Unit) { c == 9 || c == 32 }

  function TrimLeft(s: Str): Str { if s != [] && Trimmable(s[0]) then TrimLeft(s[1..]) else s }
  function TrimRight(s: Str): Str { if s != [] && Trimmable(s[|s| - 1]) then TrimRight(s[..|s| - 1]) else s }

  function Slashes(s: Str): (r: Str)
    ensures |r| == |s|
  {
    seq(|s|, i requires 0 <= i < |s| => if s[i] == 92 then SLASH else s[i])
  }

  function DropDotSlash(s: Str): Str {
    if |s| >= 2 && s[0] == DOT && s[1] == SLASH then DropDotSlash(s[2..]) else s
  }

  /** Units that no accepted path contains: controls, NUL among them, and space, ? and #. */
  predicate Forbidden(c: Unit) { c < 0x20 || c == 32 || c == 63 || c == 35 }

  predicate Clean(r: Str) { !Has2(r, DOT, DOT) && forall i :: 0 <= i < |r| ==> !Forbidden(r[i]) }

  predicate IsFileUrl(s: Str) { |s| >= 5 && Lower(s[..5]) == Ascii("file:") }

  /** The path of a file URL, decoded, unless the URL parser or the decoder throws. */
  type FileUrl = Str -> Option<Str>

  function Unwrapped(url: FileUrl, r: Str): Str {
    if IsFileUrl(r) then (match url(r) case Some(p) => p case None => r) else r
  }

  /** Allowed extensions are ASCII, and no other unit lowers to a letter of theirs. */
  function Qualify(p: Str): Option<Str> {
    if Has2(p, SLASH, SLASH) || !Qualified(p) then None else
    var i := LastDot(p);
    var ext := Lower(p[i + 1..]);
    if ext in EXTENSIONS then Some(p[..i] + [DOT] + ext) else None
  }

  function NormalizeAndQualify(url: FileUrl, raw: Str): Option<Str> {
    var trimmed := TrimRight(TrimLeft(raw));
    if trimmed == [] then None else
    var r := DropDotSlash(Slashes(Unwrapped(url, trimmed)));
    if !Clean(r) then None else
    var best := LastAnchor(r);
    if !(0 <= best <= |r|) then None else Qualify(r[best..])
  }

  lemma ScanStep(r: Str, i: nat, best: int)
    requires i < |r|
    ensures var m := if r[i] == SLASH then RootLength(r[i + 1..], ROOTS) else 0;
            Scan(r[i..], i, best) == if m > 0 then Scan(r[i + 1 + m..], i + 1 + m, i + 1) else Scan(r[i + 1..], i + 1, best)
  {
    var s := r[i..];
    assert s[1..] == r[i + 1..];
    var m := RootLength(s[1..], ROOTS);
    assert s[1 + m..] == r[i + 1 + m..];
  }

  lemma ScanStarts(r: Str)
    ensures var n := RootLength(r, ROOTS); LastAnchor(r) == Scan(r[n..], n, if n > 0 then 0 else -1)
  {
    assert r[0..] == r;
  }

  /** One step of the scan: past the anchor that starts here, or past one unit. */
  method AnchorStep(r: Str, i: nat, best: int) returns (next: nat, start: int)
    requires i < |r|
    ensures i < next <= |r| && Scan(r[i..], i, best) == Scan(r[next..], next, start)
  {
    var m := if r[i] == SLASH then RootLength(r[i + 1..], ROOTS) else 0;
    ScanStep(r, i, best);
    if m > 0 {
      next, start := i + 1 + m, i + 1;
    } else {
      next, start := i + 1, best;
    }
  }

  method FindLastAnchor(r: Str) returns (bestStart: int)
    ensures bestStart == LastAnchor(r)
  {
    bestStart := -1;
    var i: nat := RootLength(r, ROOTS);
    if i > 0 {
      bestStart := 0;
    }
    ScanStarts(r);
    while i < |r|
      invariant i <= |r|
      invariant LastAnchor(r) == Scan(r[i..], i, bestStart)
      decreases |r| - i
    {
      i, bestStart := AnchorStep(r, i, bestStart);
    }
  }

  // ----- anchors

  predicate AnchorAt(s: Str) { s != [] && s[0] == SLASH && RootLen(s[1..]) > 0 }

  predicate NoAnchor(s: Str) { s == [] || (!AnchorAt(s) && NoAnchor(s[1..])) }

  /** s starts with a root and has no further anchor behind it. */
  predicate LoneRoot(s: Str) { RootLen(s) > 0 && NoAnchor(s[RootLength(s, ROOTS)..]) }

  lemma {:induction false} ScanNone(s: Str, offset: nat, best: int)
    requires NoAnchor(s)
    ensures Scan(s, offset, best) == best
    decreases |s|
  {
    if s != [] { ScanNone(s[1..], offset + 1, best); }
  }

  /** best is where, counted from offset, the last anchor of s starts. */
  ghost predicate Finds(s: Str, offset: nat, best: int) {
    offset < best <= offset + |s| && LoneRoot(s[best - offset..])
  }

  lemma FindsLater(s: Str, n: nat, offset: nat, best: int)
    requires n <= |s| && Finds(s[n..], offset + n, best)
    ensures Finds(s, offset, best)
  {
    assert s[n..][best - offset - n..] == s[best - offset..];
  }

  lemma FindsHere(s: Str, offset: nat)
    requires AnchorAt(s) && NoAnchor(s[1 + RootLength(s[1..], ROOTS)..])
    ensures Finds(s, offset, offset + 1)
  {
    assert s[1..][RootLength(s[1..], ROOTS)..] == s[1 + RootLength(s[1..], ROOTS)..];
  }

  lemma {:induction false} ScanFinds(s: Str, offset: nat, best: int)
    requires !NoAnchor(s)
    ensures Finds(s, offset, Scan(s, offset, best))
    decreases |s|
  {
    if AnchorAt(s) {
      var n := 1 + RootLength(s[1..], ROOTS);
      if NoAnchor(s[n..]) {
        ScanNone(s[n..], offset + n, offset + 1);
        FindsHere(s, offset);
      } else {
        ScanFinds(s[n..], offset + n, offset + 1);
        FindsLater(s, n, offset, Scan(s, offset, best));
      }
    } else {
      ScanFinds(s[1..], offset + 1, best);
      FindsLater(s, 1, offset, Scan(s, offset, best));
    }
  }

  lemma LastAnchorMeans(r: Str)
    ensures LastAnchor(r) >= 0 ==> LastAnchor(r) <= |r| && LoneRoot(r[LastAnchor(r)..])
    ensures LoneRoot(r) ==> LastAnchor(r) == 0
  {
    var n := RootLength(r, ROOTS);
    assert r[0..] == r;
    if n > 0 {
      if NoAnchor(r[n..]) {
        ScanNone(r[n..], n, 0);
      } else {
        ScanFinds(r[n..], n, 0);
        FindsLater(r, n, 0, LastAnchor(r));
      }
    } else if NoAnchor(r) {
      ScanNone(r, 0, -1);
    } else {
      ScanFinds(r, 0, -1);
    }
  }

  // ----- only the part up to the last dot matters for anchors

  lemma SameStart(a: Str, x: Str, prefix: Str)
    requires SLASH !in x && prefix != [] && prefix[|prefix| - 1] == SLASH
    ensures StartsWith(a + x, prefix) <==> StartsWith(a, prefix)
  {
    var n := |prefix|;
    assert forall i :: |a| <= i < |a + x| ==> (a + x)[i] == x[i - |a|];
    if StartsWith(a + x, prefix) {
      assert (a + x)[n - 1] == (a + x)[..n][n - 1] == SLASH;
      assert n <= |a|;
      assert (a + x)[..n] == a[..n];
    }
    if StartsWith(a, prefix) {
      assert (a + x)[..n] == a[..n];
    }
  }

  ghost predicate SlashEnded(roots: seq<Str>) {
    forall i :: 0 <= i < |roots| ==> |roots[i]| >= 4 && roots[i][|roots[i]| - 1] == SLASH
  }

  lemma RootsEnd()
    ensures SlashEnded(ROOTS)
  {
  }

  lemma {:induction false} SameRoot(a: Str, x: Str, roots: seq<Str>)
    requires SLASH !in x && SlashEnded(roots)
    ensures RootLength(a + x, roots) == RootLength(a, roots)
  {
    if roots != [] {
      SameStart(a, x, roots[0]);
      SameRoot(a, x, roots[1..]);
    }
  }

  lemma {:induction false} SameAnchors(a: Str, x: Str)
    requires SLASH !in x
    ensures NoAnchor(a + x) <==> NoAnchor(a)
    decreases |a| + |x|
  {
    RootsEnd();
    if a == [] {
      assert a + x == x;
      if x != [] {
        assert x[0] in x && x == [x[0]] + x[1..];
        SameAnchors(a, x[1..]);
        assert a + x[1..] == x[1..];
      }
    } else {
      assert (a + x)[1..] == a[1..] + x;
      SameRoot(a[1..], x, ROOTS);
      SameAnchors(a[1..], x);
    }
  }

  lemma SameLone(a: Str, x: Str)
    requires SLASH !in x
    ensures LoneRoot(a + x) <==> LoneRoot(a)
  {
    RootsEnd();
    SameRoot(a, x, ROOTS);
    var n := RootLength(a, ROOTS);
    assert (a + x)[n..] == a[n..] + x;
    SameAnchors(a[n..], x);
  }

  // ----- the units of accepted paths

  lemma {:induction false} RootUnits(s: Str, roots: seq<Str>)
    requires RootLength(s, roots) > 0
    ensures exists k :: 0 <= k < |roots| && StartsWith(s, roots[k]) && RootLength(s, roots) == |roots[k]|
  {
    if StartsWith(s, roots[0]) {
      assert StartsWith(s, roots[0]) && RootLength(s, roots) == |roots[0]|;
    } else {
      RootUnits(s, roots[1..]);
      var k :| 0 <= k < |roots[1..]| && StartsWith(s, roots[1..][k]) && RootLength(s, roots[1..]) == |roots[1..][k]|;
      assert roots[k + 1] == roots[1..][k];
    }
  }

  predicate LowerLetter(c: Unit) { 97 <= c <= 122 }

  /** Roots consist of path units and start with two letters, the first of them no f. */
  lemma RootText(k: nat)
    requires k < |ROOTS|
    ensures var t := ROOTS[k]; |t| >= 4 && (forall i :: 0 <= i < |t| ==> PathUnit(t[i]) || t[i] == SLASH)
                               && LowerLetter(t[0]) && t[0] != 102 && LowerLetter(t[1])
  {
  }

  lemma ExtensionText(ext: Str)
    requires ext in EXTENSIONS
    ensures ext != [] && forall i :: 0 <= i < |ext| ==> LowerLetter(ext[i])
  {
    var k :| 0 <= k < |EXTENSIONS| && EXTENSIONS[k] == ext;
    ExtensionUnits(k);
  }

  lemma ExtensionUnits(k: nat)
    requires k < |EXTENSIONS|
    ensures EXTENSIONS[k] != [] && forall i :: 0 <= i < |EXTENSIONS[k]| ==> LowerLetter(EXTENSIONS[k][i])
  {
  }

  lemma AfterRoot(head: Str, root: Str)
    requires |root| >= 4 && StartsWith(head, root) && forall i :: 0 <= i < |root| ==> PathUnit(root[i]) || root[i] == SLASH
    requires forall i :: 0 <= i < |head[|root|..]| ==> PathUnit(head[|root|..][i]) || head[|root|..][i] == SLASH
    ensures forall i :: 0 <= i < |head| ==> PathUnit(head[i]) || head[i] == SLASH
    ensures |head| >= 4 && head[0] == root[0] && head[1] == root[1]
  {
    assert head == root + head[|root|..];
  }

  lemma HeadUnits(head: Str)
    requires RootLen(head) > 0 && Segmented(head[RootLength(head, ROOTS)..])
    ensures forall i :: 0 <= i < |head| ==> PathUnit(head[i]) || head[i] == SLASH
    ensures |head| >= 4 && LowerLetter(head[0]) && head[0] != 102 && LowerLetter(head[1])
  {
    RootUnits(head, ROOTS);
    var k: nat :| k < |ROOTS| && StartsWith(head, ROOTS[k]) && RootLength(head, ROOTS) == |ROOTS[k]|;
    RootText(k);
    AfterRoot(head, ROOTS[k]);
  }

  // ----- what is accepted

  /** The shape of accepted paths. */
  ghost predicate Accepted(head: Str, ext: Str) {
    && ext in EXTENSIONS && RootLen(head) > 0 && Segmented(head[RootLength(head, ROOTS)..])
    && LoneRoot(head + [DOT]) && !Has2(head + [DOT], DOT, DOT) && !Has2(head + [DOT], SLASH, SLASH)
  }

  lemma NoDotBehind(t: Str, i: nat)
    requires i < |t| && DOT !in t[i + 1..]
    ensures forall k :: i < k < |t| ==> t[k] != DOT
  {
    forall k | i < k < |t| ensures t[k] != DOT {
      assert t[i + 1..][k - i - 1] == t[k];
    }
  }

  lemma SplitsAtDot(head: Str, ext: Str)
    requires DOT !in ext
    ensures LastDot(head + [DOT] + ext) == |head|
  {
    var t := head + [DOT] + ext;
    var i := LastDot(t);
    assert t[|head|] == DOT && t[|head| + 1..] == ext;
    NoDotBehind(t, |head|);
    assert DOT in t;
    NoDotBehind(t, i);
  }

  lemma PairInFront(s: Str, x: Str, a: Unit, b: Unit)
    ensures Has2(s, a, b) ==> Has2(s + x, a, b)
  {
    if Has2(s, a, b) {
      var i :| 0 <= i < |s| - 1 && s[i] == a && s[i + 1] == b;
      assert (s + x)[i] == a && (s + x)[i + 1] == b;
    }
  }

  lemma PairNotBehind(s: Str, x: Str, a: Unit)
    requires a !in x
    ensures Has2(s + x, a, a) ==> Has2(s, a, a)
  {
    var t := s + x;
    assert forall i :: |s| <= i < |t| ==> t[i] == x[i - |s|];
    if Has2(t, a, a) {
      var i :| 0 <= i < |t| - 1 && t[i] == a && t[i + 1] == a;
      assert i + 1 < |s|;
      assert s[i] == a && s[i + 1] == a;
    }
  }

  lemma LowerSlash(x: Str)
    requires SLASH !in Lower(x)
    ensures SLASH !in x
  {
    forall i | 0 <= i < |x| ensures x[i] != SLASH {
      assert Lower(x)[i] in Lower(x);
    }
  }

  lemma QualifiedAccepted(p: Str) returns (head: Str, ext: Str)
    requires Qualify(p).Some? && LoneRoot(p) && !Has2(p, DOT, DOT)
    ensures Accepted(head, ext) && Qualify(p) == Some(head + [DOT] + ext)
  {
    var i := LastDot(p);
    var x := p[i + 1..];
    head, ext := p[..i], Lower(x);
    ExtensionText(ext);
    assert SLASH !in ext;
    LowerSlash(x);
    assert p == head + [DOT] + x;
    SameLone(head + [DOT], x);
    PairInFront(head + [DOT], x, DOT, DOT);
    PairInFront(head + [DOT], x, SLASH, SLASH);
  }

  lemma PairSlice(r: Str, b: nat, x: Unit, y: Unit)
    requires b <= |r|
    ensures Has2(r[b..], x, y) ==> Has2(r, x, y)
  {
    var p := r[b..];
    if Has2(p, x, y) {
      var i :| 0 <= i < |p| - 1 && p[i] == x && p[i + 1] == y;
      assert r[b + i] == x && r[b + i + 1] == y;
    }
  }

  /** Every result of qualification has the accepted shape. */
  lemma ResultAccepted(url: FileUrl, raw: Str) returns (head: Str, ext: Str)
    requires NormalizeAndQualify(url, raw).Some?
    ensures Accepted(head, ext) && NormalizeAndQualify(url, raw) == Some(head + [DOT] + ext)
  {
    var r := DropDotSlash(Slashes(Unwrapped(url, TrimRight(TrimLeft(raw)))));
    var best := LastAnchor(r);
    LastAnchorMeans(r);
    PairSlice(r, best, DOT, DOT);
    head, ext := QualifiedAccepted(r[best..]);
  }

  lemma AcceptedUnits(head: Str, ext: Str)
    requires Accepted(head, ext)
    ensures var q := head + [DOT] + ext;
            && (forall i :: 0 <= i < |q| ==> PathUnit(q[i]) || q[i] == SLASH)
            && |q| >= 4 && LowerLetter(q[0]) && q[0] != 102 && LowerLetter(q[1]) && LowerLetter(q[|q| - 1])
  {
    HeadUnits(head);
    ExtensionText(ext);
  }

  lemma AcceptedClean(head: Str, ext: Str)
    requires Accepted(head, ext)
    ensures var q := head + [DOT] + ext;
            Clean(q) && Slashes(q) == q && DropDotSlash(q) == q && !IsFileUrl(q) && TrimRight(TrimLeft(q)) == q
  {
    var q := head + [DOT] + ext;
    AcceptedUnits(head, ext);
    ExtensionText(ext);
    PairNotBehind(head + [DOT], ext, DOT);
    assert Slashes(q) == q;
    assert Lower(q[..4])[0] == q[0];
    assert Ascii("file:")[0] == 102;
    if |q| >= 5 { assert Lower(q[..5])[0] == q[0]; }
  }

  lemma AcceptedQualifies(head: Str, ext: Str)
    requires Accepted(head, ext)
    ensures Qualify(head + [DOT] + ext) == Some(head + [DOT] + ext) && LoneRoot(head + [DOT] + ext)
  {
    var q := head + [DOT] + ext;
    ExtensionText(ext);
    SplitsAtDot(head, ext);
    SameLone(head + [DOT], ext);
    PairNotBehind(head + [DOT], ext, SLASH);
    assert q[..|head|] == head && q[|head| + 1..] == ext;
    assert Lower(ext) == ext;
    assert q[RootLength(head, ROOTS)..|head|] == head[RootLength(head, ROOTS)..];
  }

  /** Qualifying is idempotent on what it accepts, whatever a URL parser would do. */
  lemma QualifyIdempotent(url: FileUrl, other: FileUrl, raw: Str)
    requires NormalizeAndQualify(url, raw).Some?
    ensures NormalizeAndQualify(other, NormalizeAndQualify(url, raw).value) == NormalizeAndQualify(url, raw)
  {
    var head, ext := ResultAccepted(url, raw);
    var q := head + [DOT] + ext;
    AcceptedClean(head, ext);
    AcceptedQualifies(head, ext);
    LastAnchorMeans(q);
    assert q[0..] == q;
  }

  /** Paths of the accepted shape are exactly the fixed points. */
  lemma FixedIffAccepted(url: FileUrl, q: Str)
    ensures NormalizeAndQualify(url, q) == Some(q) <==> exists head, ext :: Accepted(head, ext) && q == head + [DOT] + ext
  {
    if NormalizeAndQualify(url, q) == Some(q) {
      var head, ext := ResultAccepted(url, q);
    }
    if exists head, ext :: Accepted(head, ext) && q == head + [DOT] + ext {
      var head, ext :| Accepted(head, ext) && q == head + [DOT] + ext;
      AcceptedClean(head, ext);
      AcceptedQualifies(head, ext);
      LastAnchorMeans(q);
      assert q[0..] == q;
    }
  }

  /** What is qualified: the raw path trimmed, taken out of a file URL, with slashes turned and leading ./ dropped. */
  function Cleaned(url: FileUrl, raw: Str): Str { DropDotSlash(Slashes(Unwrapped(url, TrimRight(TrimLeft(raw))))) }

  /** The end of r from position b, its extension in lower case. */
  ghost predicate IsTail(q: Str, r: Str, b: nat) {
    exists head, x :: b <= |r| && r[b..] == head + [DOT] + x && DOT !in x && q == head + [DOT] + Lower(x)
  }

  lemma QualifyTail(p: Str) returns (head: Str, x: Str)
    requires Qualify(p).Some?
    ensures p == head + [DOT] + x && DOT !in x && Qualify(p) == Some(head + [DOT] + Lower(x))
  {
    var i := LastDot(p);
    head, x := p[..i], p[i + 1..];
  }

  /** The result is the end of the cleaned path from a root that has no further one behind it. */
  lemma ResultIsTail(url: FileUrl, raw: Str)
    requires NormalizeAndQualify(url, raw).Some?
    ensures var r := Cleaned(url, raw);
            exists b: nat :: b <= |r| && LoneRoot(r[b..]) && IsTail(NormalizeAndQualify(url, raw).value, r, b)
  {
    var r := Cleaned(url, raw);
    var b := LastAnchor(r);
    LastAnchorMeans(r);
    var head, x := QualifyTail(r[b..]);
    assert IsTail(NormalizeAndQualify(url, raw).value, r, b);
  }

  // ----- preflight

  predicate IsLetter(c: Unit) { 97 <= c <= 122 || 65 <= c <= 90 }

  /** Patterns are non-empty, contain no "..", do not start with a slash or a drive, and contain no NUL. */
  predicate Preflight(s: Str) {
    s != [] && !Has2(s, DOT, DOT) && s[0] != SLASH && !(|s| >= 2 && IsLetter(s[0]) && s[1] == 58) && 0 !in s
  }

  /** What harvesting accepts, pattern preflight lets through. */
  lemma AcceptedPassesPreflight(url: FileUrl, raw: Str)
    requires NormalizeAndQualify(url, raw).Some?
    ensures Preflight(NormalizeAndQualify(url, raw).value)
  {
    var head, ext := ResultAccepted(url, raw);
    AcceptedUnits(head, ext);
    AcceptedClean(head, ext);
  }

  // ----- harvesting

  /** The expressions that split text and gate fragments. */
  datatype Gates = Gates(titles: Titles, fragments: Str -> seq<Str>, candidates: Str -> seq<Str>, referenceOnly: Str -> bool,
                         strong: Str -> bool, modal: Str -> bool, numbered: Str -> bool, expects: Str -> bool, url: FileUrl)

  const STRONG: seq<Str> := [Ascii("examples/"), Ascii("docs/"), Ascii("schemas/"), Ascii("plans/")]
  const WEAK: seq<Str> := [Ascii("src/"), Ascii("test/"), Ascii("debug-ui/")]

  predicate PassesFragmentGate(g: Gates, path: Str, fragment: Str) {
    if exists k :: 0 <= k < |STRONG| && StartsWith(path, STRONG[k]) then g.strong(fragment)
    else (exists k :: 0 <= k < |WEAK| && StartsWith(path, WEAK[k])) && (g.strong(fragment) || g.modal(fragment) || g.numbered(fragment))
  }

  /** Code paths lie under src/, test/ or debug-ui/. */
  predicate IsCodePath(path: Str) {
    StartsWith(path, Ascii("src/")) || StartsWith(path, Ascii("test/")) || StartsWith(path, Ascii("debug-ui/"))
  }

  /** A strong action verb makes any path an obligation; of code paths a modal verb or a numbered item is enough. */
  predicate Obliges(g: Gates, path: Str, fragment: Str) {
    g.strong(fragment) || (IsCodePath(path) && (g.modal(fragment) || g.numbered(fragment)))
  }

  /** The path was cited in a fragment that makes it an obligation. */
  ghost predicate Cited(g: Gates, path: Str, fragment: Str) {
    && !g.referenceOnly(fragment) && Obliges(g, path, fragment)
    && exists c :: c in g.candidates(fragment) && NormalizeAndQualify(g.url, c) == Some(path)
  }

  lemma SecondUnit(path: Str, prefix: Str, c: Unit)
    requires |prefix| > 1 && prefix[1] == c && StartsWith(path, prefix)
    ensures |path| > 1 && path[1] == c
  {
    assert path[..|prefix|][1] == path[1];
  }

  /** The second letter tells the roots of code from the others. */
  lemma StrongSecond(path: Str, k: nat)
    requires k < |STRONG| && StartsWith(path, STRONG[k])
    ensures |path| > 1 && path[1] in {120, 111, 99, 108}
  {
    SecondUnit(path, STRONG[k], STRONG[k][1]);
  }

  lemma WeakSecond(path: Str, k: nat)
    requires k < |WEAK| && StartsWith(path, WEAK[k])
    ensures |path| > 1 && path[1] in {114, 101}
  {
    SecondUnit(path, WEAK[k], WEAK[k][1]);
  }

  lemma RootKinds(path: Str)
    requires RootLen(path) > 0
    ensures (exists k :: 0 <= k < |STRONG| && StartsWith(path, STRONG[k])) || (exists k :: 0 <= k < |WEAK| && StartsWith(path, WEAK[k]))
  {
    RootUnits(path, ROOTS);
    var k: nat :| k < |ROOTS| && StartsWith(path, ROOTS[k]) && RootLength(path, ROOTS) == |ROOTS[k]|;
    assert ROOTS[0] == WEAK[0] && ROOTS[1] == STRONG[2] && ROOTS[2] == STRONG[0] && ROOTS[3] == STRONG[1];
    assert ROOTS[4] == WEAK[1] && ROOTS[5] == WEAK[2] && ROOTS[6] == STRONG[3];
  }

  lemma CodeIsWeak(path: Str)
    ensures IsCodePath(path) <==> exists k :: 0 <= k < |WEAK| && StartsWith(path, WEAK[k])
  {
    assert WEAK[0] == Ascii("src/") && WEAK[1] == Ascii("test/") && WEAK[2] == Ascii("debug-ui/");
  }

  /** For a path with a root the gate is just that. */
  lemma GateMeans(g: Gates, path: Str, fragment: Str)
    requires RootLen(path) > 0
    ensures PassesFragmentGate(g, path, fragment) <==> Obliges(g, path, fragment)
  {
    RootKinds(path);
    CodeIsWeak(path);
    if exists k :: 0 <= k < |STRONG| && StartsWith(path, STRONG[k]) {
      var k: nat :| k < |STRONG| && StartsWith(path, STRONG[k]);
      StrongSecond(path, k);
      forall j: nat | j < |WEAK| && StartsWith(path, WEAK[j]) ensures path[1] in {114, 101} {
        WeakSecond(path, j);
      }
    }
  }

  lemma QualifiedHasRoot(url: FileUrl, raw: Str)
    requires NormalizeAndQualify(url, raw).Some?
    ensures RootLen(NormalizeAndQualify(url, raw).value) > 0
  {
    var head, ext := ResultAccepted(url, raw);
    AcceptedQualifies(head, ext);
  }

  /** The fragments that harvesting looks at, in order: those of visited lines, then the todo segments. */
  function Fragments(g: Gates, visits: seq<Visit>): seq<Str> {
    if visits == [] then []
    else
      var v := visits[0];
      (if g.referenceOnly(v.line) || (v.sectionIsTesting && g.expects(v.line)) then [] else g.fragments(v.line))
      + Fragments(g, visits[1..])
  }

  method HarvestFromFragment(g: Gates, fragment: Str, into0: set<Str>) returns (into: set<Str>)
    ensures forall p :: p in into <==> p in into0 || Cited(g, p, fragment)
  {
    into := into0;
    if g.referenceOnly(fragment) { return; }
    var cs := g.candidates(fragment);
    for i := 0 to |cs|
      invariant forall p :: p in into <==>
                  p in into0 || (Obliges(g, p, fragment) && exists c :: c in cs[..i] && NormalizeAndQualify(g.url, c) == Some(p))
    {
      assert cs[..i + 1] == cs[..i] + [cs[i]];
      var q := NormalizeAndQualify(g.url, cs[i]);
      if q.Some? {
        QualifiedHasRoot(g.url, cs[i]);
        GateMeans(g, q.value, fragment);
      }
      if q.Some? && PassesFragmentGate(g, q.value, fragment) {
        into := into + {q.value};
      }
    }
    assert cs[..|cs|] == cs;
  }

  method HarvestFragments(g: Gates, fragments: seq<Str>, into0: set<Str>) returns (into: set<Str>)
    ensures forall p :: p in into <==> p in into0 || exists f :: f in fragments && Cited(g, p, f)
  {
    into := into0;
    for i := 0 to |fragments|
      invariant forall p :: p in into <==> p in into0 || exists f :: f in fragments[..i] && Cited(g, p, f)
    {
      assert fragments[..i + 1] == fragments[..i] + [fragments[i]];
      into := HarvestFromFragment(g, fragments[i], into);
    }
    assert fragments[..|fragments|] == fragments;
  }

  predicate SkippedVisit(g: Gates, v: Visit) { g.referenceOnly(v.line) || (v.sectionIsTesting && g.expects(v.line)) }

  lemma {:induction false} FragmentsMean(g: Gates, visits: seq<Visit>, f: Str)
    ensures f in Fragments(g, visits) <==>
            exists i :: 0 <= i < |visits| && !SkippedVisit(g, visits[i]) && f in g.fragments(visits[i].line)
  {
    if visits != [] {
      FragmentsMean(g, visits[1..], f);
      assert forall i :: 1 <= i < |visits| ==> visits[i] == visits[1..][i - 1];
    }
  }

  /** Line k is passed over: it only refers to something, or states an expectation in a section about testing. */
  ghost predicate SkippedLine(g: Gates, lines: seq<Str>, fences: seq<Fence>, k: nat)
    requires k < |lines|
  {
    g.referenceOnly(lines[k]) || (InTesting(g.titles, lines, fences, k) && g.expects(lines[k]))
  }

  /** A fragment of line k cites the path. */
  ghost predicate CitedAt(g: Gates, lines: seq<Str>, fences: seq<Fence>, k: nat, p: Str) {
    && Visited(g.titles, lines, fences, k) && !SkippedLine(g, lines, fences, k)
    && exists f :: f in g.fragments(lines[k]) && Cited(g, p, f)
  }

  lemma CitedInVisits(g: Gates, lines: seq<Str>, fences: seq<Fence>, positions: seq<nat>, visits: seq<Visit>, p: Str)
    requires IsWalk(g.titles, lines, fences, |lines|, positions, visits)
    ensures (exists f :: f in Fragments(g, visits) && Cited(g, p, f)) <==> exists k: nat :: CitedAt(g, lines, fences, k, p)
  {
    if exists f :: f in Fragments(g, visits) && Cited(g, p, f) {
      var f :| f in Fragments(g, visits) && Cited(g, p, f);
      FragmentsMean(g, visits, f);
      var i :| 0 <= i < |visits| && !SkippedVisit(g, visits[i]) && f in g.fragments(visits[i].line);
      assert positions[i] in positions;
      assert CitedAt(g, lines, fences, positions[i], p);
    }
    if exists k: nat :: CitedAt(g, lines, fences, k, p) {
      var k: nat :| CitedAt(g, lines, fences, k, p);
      var f :| f in g.fragments(lines[k]) && Cited(g, p, f);
      assert k in positions;
      var i :| 0 <= i < |positions| && positions[i] == k;
      assert !SkippedVisit(g, visits[i]) && f in g.fragments(visits[i].line);
      FragmentsMean(g, visits, f);
    }
  }

  lemma CitedIsQualified(g: Gates, p: Str, f: Str)
    requires Cited(g, p, f)
    ensures Preflight(p) && NormalizeAndQualify(g.url, p) == Some(p)
  {
    var c :| c in g.candidates(f) && NormalizeAndQualify(g.url, c) == Some(p);
    AcceptedPassesPreflight(g.url, c);
    QualifyIdempotent(g.url, g.url, c);
  }

  ghost predicate CitedByTodo(g: Gates, todoSegments: seq<Str>, p: Str) { exists f :: f in todoSegments && Cited(g, p, f) }

  /** The path is cited by a visited line that is not passed over, or by a todo segment. */
  ghost predicate CitedByPlan(g: Gates, lines: seq<Str>, fences: seq<Fence>, todoSegments: seq<Str>, p: Str) {
    (exists k: nat :: CitedAt(g, lines, fences, k, p)) || CitedByTodo(g, todoSegments, p)
  }

  lemma PlanCites(g: Gates, lines: seq<Str>, fences: seq<Fence>, todoSegments: seq<Str>, p: Str)
    requires CitedByPlan(g, lines, fences, todoSegments, p)
    ensures Preflight(p) && NormalizeAndQualify(g.url, p) == Some(p)
  {
    var f :| Cited(g, p, f);
    CitedIsQualified(g, p, f);
  }

  method Collect(g: Gates, body: Str, todoSegments: seq<Str>) returns (into: set<Str>, ghost fences: seq<Fence>)
    ensures IsFences(fences, Split(body, NEWLINE))
    ensures forall p :: p in into <==> CitedByPlan(g, Split(body, NEWLINE), fences, todoSegments, p)
  {
    var visits;
    ghost var positions;
    visits, fences, positions := WalkObligationLines(g.titles, body);
    into := HarvestFragments(g, Fragments(g, visits), {});
    forall p ensures p in into <==> exists k: nat :: CitedAt(g, Split(body, NEWLINE), fences, k, p) {
      CitedInVisits(g, Split(body, NEWLINE), fences, positions, visits, p);
    }
    into := HarvestFragments(g, todoSegments, into);
  }

  /** Exactly the cited paths, each once, in code-unit order; every one is a fixed point of qualification and a valid pattern. */
  method Harvest(g: Gates, body: Str, todoSegments: seq<Str>) returns (paths: seq<Str>, ghost fences: seq<Fence>)
    ensures Ascending(paths)
    ensures IsFences(fences, Split(body, NEWLINE))
    ensures forall p :: p in paths <==> CitedByPlan(g, Split(body, NEWLINE), fences, todoSegments, p)
    ensures forall i :: 0 <= i < |paths| ==> Preflight(paths[i]) && NormalizeAndQualify(g.url, paths[i]) == Some(paths[i])
  {
    var into;
    into, fences := Collect(g, body, todoSegments);
    paths := SortedKeys(into);
    forall p ensures p in paths <==> p in into {
      assert p in paths <==> p in Elements(paths);
    }
    forall i | 0 <= i < |paths| ensures Preflight(paths[i]) && NormalizeAndQualify(g.url, paths[i]) == Some(paths[i]) {
      var p := paths[i];
      assert p in paths;
      PlanCites(g, Split(body, NEWLINE), fences, todoSegments, p);
    }
  }
}
