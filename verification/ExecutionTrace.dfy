/** The parent graph of run events and the ancestor walk over trace nodes (src/executionTrace.ts). */
module ExecutionTrace {
  import opened Sorting
  import opened Utf16
  import opened Decimal
  import opened LogicalSteps

  /** A run event by schema version; only versions 2 and 3 carry an id and a parent. */
  datatype RunEvent = EventV1 | EventV2(id: Str, parent: Option<Str>) | EventV3(id: Str, parent: Option<Str>)

  predicate Named(e: RunEvent) { e.EventV2? || e.EventV3? }

  // ----- the validator

  datatype Check = Accepted | DuplicateId(id: Str) | UnknownParent(p: Str) | ForwardReference(child: nat, parentIndex: nat)

  ghost predicate UniqueIds(events: seq<RunEvent>) {
    forall i, j :: 0 <= i < j < |events| && Named(events[i]) && Named(events[j]) ==> events[i].id != events[j].id
  }

  /** The parent that event i names is the id of a strictly earlier event. */
  ghost predicate ParentEarlier(events: seq<RunEvent>, i: nat)
    requires i < |events|
  {
    Named(events[i]) && events[i].parent.Some? ==>
      exists j :: 0 <= j < i && Named(events[j]) && events[j].id == events[i].parent.value
  }

  ghost predicate ValidGraph(events: seq<RunEvent>) {
    UniqueIds(events) && forall i :: 0 <= i < |events| ==> ParentEarlier(events, i)
  }

  /** idToIndex maps the ids of the named events to their positions. */
  ghost predicate Indexes(idToIndex: map<Str, nat>, events: seq<RunEvent>) {
    && (forall id :: id in idToIndex ==> idToIndex[id] < |events| && Named(events[idToIndex[id]]) && events[idToIndex[id]].id == id)
    && (forall i :: 0 <= i < |events| && Named(events[i]) ==> events[i].id in idToIndex)
  }

  /** The id at position j was in use before, and it is the first such. */
  ghost predicate FirstRepeat(events: seq<RunEvent>, id: Str, j: nat) {
    && j < |events| && Named(events[j]) && events[j].id == id && UniqueIds(events[..j])
    && exists i :: 0 <= i < j && Named(events[i]) && events[i].id == id
  }

  /** Event c is the first whose parent is not an earlier event. */
  ghost predicate FirstFault(events: seq<RunEvent>, c: nat) {
    && c < |events| && Named(events[c]) && events[c].parent.Some? && !ParentEarlier(events, c)
    && forall k :: 0 <= k < c ==> ParentEarlier(events, k)
  }

  ghost predicate Unused(events: seq<RunEvent>, id: Str) {
    forall i :: 0 <= i < |events| && Named(events[i]) ==> events[i].id != id
  }

  method IndexIds(events: seq<RunEvent>) returns (r: Check, idToIndex: map<Str, nat>)
    ensures r.Accepted? || r.DuplicateId?
    ensures r.Accepted? <==> UniqueIds(events)
    ensures r.DuplicateId? ==> exists j: nat :: FirstRepeat(events, r.id, j)
    ensures r.Accepted? ==> Indexes(idToIndex, events)
  {
    idToIndex := map[];
    for i := 0 to |events|
      invariant UniqueIds(events[..i]) && Indexes(idToIndex, events[..i])
    {
      var ev := events[i];
      ghost var before, after := events[..i], events[..i + 1];
      assert after == before + [ev];
      if !Named(ev) {
        continue;
      }
      if ev.id in idToIndex {
        assert events[idToIndex[ev.id]] == before[idToIndex[ev.id]];
        assert FirstRepeat(events, ev.id, i);
        return DuplicateId(ev.id), idToIndex;
      }
      idToIndex := idToIndex[ev.id := i];
    }
    assert events[..|events|] == events;
    r := Accepted;
  }

  method AssertValidRunEventParentGraph(events: seq<RunEvent>) returns (r: Check)
    ensures r.Accepted? <==> ValidGraph(events)
    ensures r.DuplicateId? <==> !UniqueIds(events)
    ensures r.DuplicateId? ==> exists j: nat :: FirstRepeat(events, r.id, j)
    ensures r.UnknownParent? ==> Unused(events, r.p) && exists c: nat :: FirstFault(events, c) && events[c].parent == Some(r.p)
    ensures r.ForwardReference? ==>
              && FirstFault(events, r.child)
              && r.child <= r.parentIndex < |events| && Named(events[r.parentIndex])
              && events[r.child].parent == Some(events[r.parentIndex].id)
  {
    var d, idToIndex := IndexIds(events);
    if !d.Accepted? {
      return d;
    }
    for i := 0 to |events|
      invariant forall k :: 0 <= k < i ==> ParentEarlier(events, k)
    {
      var ev := events[i];
      if !Named(ev) || ev.parent.None? {
        continue;
      }
      var p := ev.parent.value;
      if p !in idToIndex {
        assert FirstFault(events, i);
        return UnknownParent(p);
      }
      var pi := idToIndex[p];
      if pi >= i {
        assert FirstFault(events, i);
        return ForwardReference(i, pi);
      }
    }
    return Accepted;
  }

  // ----- the nodes

  datatype Node = Node(ingestIndex: nat, runEventId: Str, parentRunEventId: Option<Str>)

  /** "syn:" and the position. */
  function Synthetic(i: nat): Str { [115, 121, 110, 58] + Digits(i) }

  function NodeOf(e: RunEvent, i: nat): Node {
    if e.EventV2? then Node(i, e.id, e.parent) else Node(i, Synthetic(i), None)
  }

  function Nodes(events: seq<RunEvent>): (r: seq<Node>)
    ensures |r| == |events|
    ensures forall i :: 0 <= i < |r| ==> r[i] == NodeOf(events[i], i)
  {
    seq(|events|, i requires 0 <= i < |events| => NodeOf(events[i], i))
  }

  type NodeMap = map<Str, Node>

  /** new Map(nodes.map((n) => [n.runEventId, n])): of nodes with one id the last stays. */
  function NodeMapOf(nodes: seq<Node>): (m: NodeMap)
    ensures forall id :: id in m ==> m[id] in nodes && m[id].runEventId == id
    ensures forall n :: n in nodes ==> n.runEventId in m
  {
    if nodes == [] then map[] else
    var last := nodes[|nodes| - 1];
    assert nodes == nodes[..|nodes| - 1] + [last];
    NodeMapOf(nodes[..|nodes| - 1])[last.runEventId := last]
  }

  function Next(m: NodeMap, id: Str): Option<Str> {
    if id in m then m[id].parentRunEventId else None
  }

  /** Ids from seed along parents. */
  ghost predicate IsWalk(chain: seq<Str>, seed: Str, m: NodeMap) {
    && chain != [] && chain[0] == seed
    && (forall k :: 0 <= k < |chain| - 1 ==> Next(m, chain[k]) == Some(chain[k + 1]))
  }

  /** A walk without repetition, up to where there is no parent or the visited guard stops. */
  ghost predicate IsChain(chain: seq<Str>, seed: Str, m: NodeMap) {
    && IsWalk(chain, seed, m) && Distinct(chain)
    && (Next(m, chain[|chain| - 1]).Some? ==> Next(m, chain[|chain| - 1]).value in chain)
  }

  ghost predicate GuardFired(chain: seq<Str>, m: NodeMap)
    requires chain != []
  {
    Next(m, chain[|chain| - 1]).Some?
  }

  method BuildAncestorChain(seed: Str, m: NodeMap) returns (chain: seq<Str>)
    ensures IsChain(chain, seed, m)
  {
    chain := [];
    var cur := Some(seed);
    var visited: set<Str> := {};
    while cur.Some?
      invariant forall x :: x in visited <==> x in chain
      invariant Distinct(chain)
      invariant chain == [] ==> cur == Some(seed)
      invariant chain != [] ==> chain[0] == seed && cur == Next(m, chain[|chain| - 1])
      invariant forall k :: 0 <= k < |chain| - 1 ==> Next(m, chain[k]) == Some(chain[k + 1])
      decreases m.Keys - visited, if cur.Some? then 1 else 0
    {
      if cur.value in visited {
        break;
      }
      visited := visited + {cur.value};
      chain := chain + [cur.value];
      cur := Next(m, cur.value);
    }
  }

  // ----- the walk is well founded

  ghost predicate IsId(events: seq<RunEvent>, id: Str, i: int) {
    0 <= i < |events| && Named(events[i]) && events[i].id == id
  }

  /** The position the validator has for an id, or -1 for an id that no event carries. */
  ghost function Position(events: seq<RunEvent>, id: Str): (p: int)
    ensures p == -1 || IsId(events, id, p)
    ensures p == -1 ==> forall i :: !IsId(events, id, i)
  {
    if exists i :: IsId(events, id, i) then var i :| IsId(events, id, i); i else -1
  }

  lemma SamePlace(events: seq<RunEvent>, id: Str, i: int, j: int)
    requires UniqueIds(events) && IsId(events, id, i) && IsId(events, id, j)
    ensures i == j
  {
  }

  lemma OnePosition(events: seq<RunEvent>, id: Str, i: int)
    requires UniqueIds(events) && IsId(events, id, i)
    ensures Position(events, id) == i
  {
    SamePlace(events, id, i, Position(events, id));
  }

  /** A step of the walk leaves a version 2 event for the id of a strictly earlier event. */
  lemma StepFalls(events: seq<RunEvent>, id: Str)
    requires ValidGraph(events)
    ensures var next := Next(NodeMapOf(Nodes(events)), id);
            next.Some? ==> 0 <= Position(events, next.value) < Position(events, id)
  {
    var m := NodeMapOf(Nodes(events));
    if Next(m, id).Some? {
      var n := m[id];
      assert n in Nodes(events);
      var i :| 0 <= i < |events| && NodeOf(events[i], i) == n;
      assert events[i].EventV2? && ParentEarlier(events, i);
      OnePosition(events, id, i);
      var j :| 0 <= j < i && Named(events[j]) && events[j].id == n.parentRunEventId.value;
      assert IsId(events, n.parentRunEventId.value, j);
      OnePosition(events, n.parentRunEventId.value, j);
    }
  }

  lemma {:induction false} ChainFalls(events: seq<RunEvent>, chain: seq<Str>, seed: Str, k: nat)
    requires ValidGraph(events) && IsWalk(chain, seed, NodeMapOf(Nodes(events))) && k < |chain|
    ensures forall i :: 0 <= i < k ==> Position(events, chain[i]) > Position(events, chain[k])
    ensures k > 0 ==> Position(events, chain[k]) >= 0
    ensures k > 0 ==> Position(events, chain[0]) >= Position(events, chain[k]) + k
  {
    if k > 0 {
      ChainFalls(events, chain, seed, k - 1);
      StepFalls(events, chain[k - 1]);
    }
  }

  /**
   * In every event list that the validator accepts, whatever the ids look like, the walk from any node ends without its
   * guard, repeats no id, goes strictly down in position, and is no longer than the list.
   */
  lemma WalkWellFounded(events: seq<RunEvent>, chain: seq<Str>, seed: Str)
    requires ValidGraph(events) && events != [] && IsChain(chain, seed, NodeMapOf(Nodes(events)))
    ensures !GuardFired(chain, NodeMapOf(Nodes(events)))
    ensures Distinct(chain)
    ensures forall i, j :: 0 <= i < j < |chain| ==> Position(events, chain[i]) > Position(events, chain[j]) >= 0
    ensures |chain| <= |events|
  {
    forall i, j | 0 <= i < j < |chain| ensures Position(events, chain[i]) > Position(events, chain[j]) >= 0 {
      ChainFalls(events, chain, seed, j);
    }
    ChainFalls(events, chain, seed, |chain| - 1);
    NextIsNew(events, chain, seed);
    assert Position(events, chain[0]) < |events|;
  }

  lemma NextIsNew(events: seq<RunEvent>, chain: seq<Str>, seed: Str)
    requires ValidGraph(events) && IsWalk(chain, seed, NodeMapOf(Nodes(events)))
    ensures var next := Next(NodeMapOf(Nodes(events)), chain[|chain| - 1]); next.Some? ==> next.value !in chain
  {
    var last := chain[|chain| - 1];
    var next := Next(NodeMapOf(Nodes(events)), last);
    StepFalls(events, last);
    ChainFalls(events, chain, seed, |chain| - 1);
    forall k | 0 <= k < |chain| ensures next.Some? ==> Position(events, next.value) < Position(events, chain[k]) {
    }
  }

  // ----- positions of nodes

  function NodeIndex(m: NodeMap, id: Str): int { if id in m then m[id].ingestIndex else -1 }

  /** The id of the event at i is also the synthetic id of the event at j, which has no version 2 id. */
  ghost predicate Lookalike(events: seq<RunEvent>, i: int, j: int) {
    0 <= i < |events| && 0 <= j < |events| && Named(events[i]) && !events[j].EventV2? && events[i].id == Synthetic(j)
  }

  /** Counted by nodes instead, one step goes down unless the parent's id looks like the synthetic id of a later event. */
  lemma NodeStepFalls(events: seq<RunEvent>, id: Str)
    requires ValidGraph(events)
    ensures var m := NodeMapOf(Nodes(events)); var next := Next(m, id);
            next.Some? ==>
              (NodeIndex(m, next.value) < NodeIndex(m, id) <==>
               !(exists j :: Lookalike(events, Position(events, next.value), j) && j >= NodeIndex(m, id)))
  {
    var m := NodeMapOf(Nodes(events));
    var next := Next(m, id);
    if next.Some? {
      StepFalls(events, id);
      StepNode(events, id);
      if next.value in m {
        NodeBehind(events, next.value);
      } else {
        NoNodeNoLookalike(events, next.value);
      }
    }
  }

  lemma StepNode(events: seq<RunEvent>, id: Str)
    requires ValidGraph(events) && Next(NodeMapOf(Nodes(events)), id).Some?
    ensures NodeIndex(NodeMapOf(Nodes(events)), id) == Position(events, id)
  {
    var n := NodeMapOf(Nodes(events))[id];
    assert n in Nodes(events);
    var i :| 0 <= i < |events| && NodeOf(events[i], i) == n;
    OnePosition(events, id, i);
  }

  /** The node of an id is the last event that bears it, by its own id or by a synthetic one. */
  lemma NodeBehind(events: seq<RunEvent>, id: Str)
    requires UniqueIds(events) && id in NodeMapOf(Nodes(events)) && Position(events, id) >= 0
    ensures var n, p := NodeIndex(NodeMapOf(Nodes(events)), id), Position(events, id);
            && n < |events|
            && (events[n].EventV2? ==> n == p)
            && (!events[n].EventV2? ==> Lookalike(events, p, n))
            && forall j :: Lookalike(events, p, j) ==> j <= n
  {
    var nodes, p := Nodes(events), Position(events, id);
    var n := NodeMapOf(nodes)[id];
    assert n in nodes;
    var i :| 0 <= i < |events| && nodes[i] == n;
    assert NodeIndex(NodeMapOf(nodes), id) == i && NodeOf(events[i], i).runEventId == id;
    if events[i].EventV2? {
      OnePosition(events, id, i);
    }
    forall j | Lookalike(events, p, j) ensures j <= i {
      LookalikeBefore(events, p, j);
    }
  }

  lemma LookalikeBefore(events: seq<RunEvent>, p: int, j: int)
    requires Lookalike(events, p, j)
    ensures events[p].id in NodeMapOf(Nodes(events)) && j <= NodeIndex(NodeMapOf(Nodes(events)), events[p].id)
  {
    assert Nodes(events)[j].runEventId == events[p].id;
    LastWins(Nodes(events), j);
  }

  lemma {:induction false} LastWins(nodes: seq<Node>, j: nat)
    requires j < |nodes| && forall i :: 0 <= i < |nodes| ==> nodes[i].ingestIndex == i
    ensures nodes[j].runEventId in NodeMapOf(nodes) && NodeMapOf(nodes)[nodes[j].runEventId].ingestIndex >= j
  {
    if j < |nodes| - 1 {
      LastWins(nodes[..|nodes| - 1], j);
    }
  }

  lemma NoNodeNoLookalike(events: seq<RunEvent>, id: Str)
    requires id !in NodeMapOf(Nodes(events)) && Position(events, id) >= 0
    ensures forall j :: !Lookalike(events, Position(events, id), j)
  {
    var nodes := Nodes(events);
    forall j | 0 <= j < |events| ensures nodes[j].runEventId != id {
      assert nodes[j] in nodes;
    }
  }

  /** A node that is the last with its id is the one the map holds. */
  lemma LastNode(events: seq<RunEvent>, i: nat)
    requires i < |events| && forall j :: i < j < |events| ==> NodeOf(events[j], j).runEventId != NodeOf(events[i], i).runEventId
    ensures NodeOf(events[i], i).runEventId in NodeMapOf(Nodes(events))
    ensures NodeMapOf(Nodes(events))[NodeOf(events[i], i).runEventId] == NodeOf(events[i], i)
  {
    var nodes, id := Nodes(events), NodeOf(events[i], i).runEventId;
    LastWins(nodes, i);
    var n := NodeMapOf(nodes)[id];
    assert n in nodes;
    var k :| 0 <= k < |nodes| && nodes[k] == n;
  }

  function RisingExample(): seq<RunEvent> {
    [EventV3(Synthetic(2), None), EventV2([65], Some(Synthetic(2))), EventV1]
  }

  lemma RisingExampleValid()
    ensures ValidGraph(RisingExample())
  {
    var events := RisingExample();
    assert Named(events[0]) && events[0].id == events[1].parent.value;
    assert Synthetic(2)[0] == 115;
  }

  /** A list the validator accepts whose walk goes up by nodes: a version 3 id that looks synthetic for a later event. */
  lemma NodesCanRise()
    ensures var events := RisingExample(); var m := NodeMapOf(Nodes(events));
            ValidGraph(events) && Next(m, [65]) == Some(Synthetic(2)) && NodeIndex(m, [65]) == 1 && NodeIndex(m, Synthetic(2)) == 2
  {
    RisingExampleValid();
    assert Synthetic(2)[0] == 115;
    LastNode(RisingExample(), 1);
    LastNode(RisingExample(), 2);
  }
}
