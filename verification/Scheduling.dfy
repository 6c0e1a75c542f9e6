/**
 Scores of nodes and one tick of the scheduler. What a tick may do is said on values of the
 nodes and tasks; iteration over a map may go in any order. Times are nanoseconds.
 */
module Scheduling {
  import opened Basics

  const NODE_TIMEOUT: int := 30 * 1000000000
  const EVICTION_TIMEOUT: int := 300 * 1000000000

  datatype NodeValue = NodeValue(cpuUsage: real, memFreeMB: int, activeCount: int, lastSeen: int, status: string)

  datatype TaskValue = TaskValue(targetStatus: string, currentStatus: string, assignedNode: string, updatedAt: int)

  type Nodes = map<string, NodeValue>
  type Tasks = map<string, TaskValue>

  // ---------- scores ----------

  /** Conversion to an integer, toward zero. */
  function Truncated(x: real): int { if x >= 0.0 then x.Floor else -(-x).Floor }

  function Score(n: NodeValue): nat {
    var memory := if n.memFreeMB > 1024 then 10 else if n.memFreeMB < 128 then -20 else 0;
    var score := Truncated(100.0 - n.cpuUsage) - n.activeCount * 5 + memory;
    if score < 0 then 0 else score
  }

  predicate Healthy(nodes: Nodes, id: string) { id in nodes && nodes[id].status == "Healthy" }

  /** A healthy node that no healthy node outscores. */
  predicate Best(nodes: Nodes, id: string) {
    Healthy(nodes, id) && forall other ::
      other in nodes && Healthy(nodes, other) ==> Score(nodes[other]) <= Score(nodes[id])
  }

  predicate AllZero(nodes: Nodes) { forall id :: id in nodes && Healthy(nodes, id) ==> Score(nodes[id]) == 0 }

  /** One more running task costs five points, down to zero. */
  lemma OneMore(n: NodeValue)
    ensures Score(n.(activeCount := n.activeCount + 1)) <= Score(n) <= Score(n.(activeCount := n.activeCount + 1)) + 5
  {}

  /** The number of points for memory: ten more with plenty of it, twenty less with little. */
  lemma MemoryPoints(n: NodeValue, other: NodeValue)
    requires other == n.(memFreeMB := other.memFreeMB) && 128 <= other.memFreeMB <= 1024 && Score(n) > 0
    requires Score(other) > 0
    ensures n.memFreeMB > 1024 ==> Score(n) == Score(other) + 10
    ensures 128 <= n.memFreeMB <= 1024 ==> Score(n) == Score(other)
    ensures n.memFreeMB < 128 ==> Score(n) == Score(other) - 20
  {}

  /** An idle node with ordinary memory scores its idle percentage, less five points for each running task. */
  lemma IdlePoints(n: NodeValue, idle: nat)
    requires 128 <= n.memFreeMB <= 1024
    requires idle as real <= 100.0 - n.cpuUsage < idle as real + 1.0
    ensures Score(n) == if idle >= 5 * n.activeCount then idle - 5 * n.activeCount else 0
  {
    assert (100.0 - n.cpuUsage).Floor == idle;
  }

  // ---------- health checks ----------

  function CheckedStatus(n: NodeValue, now: int): string {
    if now - n.lastSeen > EVICTION_TIMEOUT then "Dead" else if now - n.lastSeen > NODE_TIMEOUT then "Unknown"
      else "Healthy"
  }

  function Checked(n: NodeValue, now: int): NodeValue { n.(status := CheckedStatus(n, now)) }

  /** A node not heard of for more than 30 seconds is unknown, for more than five minutes dead. */
  lemma StatusBySilence(n: NodeValue, now: int)
    ensures var silence := now - n.lastSeen;
            && (CheckedStatus(n, now) == "Dead" <==> silence > 300000000000)
            && (CheckedStatus(n, now) == "Unknown" <==> 30000000000 < silence <= 300000000000)
            && (CheckedStatus(n, now) == "Healthy" <==> silence <= 30000000000)
  {
    assert "Dead"[0] == 'D' && "Unknown"[0] == 'U' && "Healthy"[0] == 'H';
  }

  /** The changes of status that are saved: all but recoveries. */
  predicate Demoted(n: NodeValue, now: int) { CheckedStatus(n, now) != "Healthy" && n.status != CheckedStatus(n, now) }

  predicate NewlyDead(n: NodeValue, now: int) { n.status != "Dead" && CheckedStatus(n, now) == "Dead" }

  function Rescued(t: TaskValue, now: int): TaskValue {
    t.(assignedNode := "", currentStatus := "Pending", updatedAt := now)
  }

  /** The nodes after the health check of the nodes in `done`. */
  function CheckedNodes(nodes: Nodes, done: set<string>, now: int): Nodes {
    map id | id in nodes :: if id in done then Checked(nodes[id], now) else nodes[id]
  }

  /** The tasks after that: those of the nodes found dead are pending again. */
  function RescuedTasks(nodes: Nodes, tasks: Tasks, done: set<string>, now: int): Tasks {
    map k | k in tasks ::
      var node := tasks[k].assignedNode;
      if node in nodes && node in done && NewlyDead(nodes[node], now) then Rescued(tasks[k], now) else tasks[k]
  }

  /** The tasks after those of one node are pending again. */
  function RescuedFrom(tasks: Tasks, node: string, now: int): Tasks {
    map k | k in tasks :: if tasks[k].assignedNode == node then Rescued(tasks[k], now) else tasks[k]
  }

  function RescuedAmong(tasks: Tasks, done: set<string>, node: string, now: int): Tasks {
    map k | k in tasks :: if k in done && tasks[k].assignedNode == node then Rescued(tasks[k], now) else tasks[k]
  }

  lemma RescuedAllOrNone(tasks: Tasks, node: string, now: int)
    ensures RescuedAmong(tasks, {}, node, now) == tasks
    ensures RescuedAmong(tasks, tasks.Keys, node, now) == RescuedFrom(tasks, node, now)
  {}

  lemma RescuedNext(tasks: Tasks, done: set<string>, k: string, node: string, now: int)
    requires k in tasks && k !in done
    ensures RescuedAmong(tasks, done, node, now)[k] == tasks[k]
    ensures RescuedAmong(tasks, done + {k}, node, now)
            == if tasks[k].assignedNode == node then RescuedAmong(tasks, done, node, now)[k := Rescued(tasks[k], now)]
               else RescuedAmong(tasks, done, node, now)
  {}

  lemma CheckedOneMore(nodes: Nodes, done: set<string>, id: string, now: int)
    requires id in nodes && id !in done
    ensures CheckedNodes(nodes, done, now)[id] == nodes[id]
    ensures CheckedNodes(nodes, done + {id}, now) == CheckedNodes(nodes, done, now)[id := Checked(nodes[id], now)]
  {}

  /** Rescuing node by node comes to the same in any order. */
  lemma RescuedOneMore(nodes: Nodes, tasks: Tasks, done: set<string>, id: string, now: int)
    requires id in nodes && id !in done
    ensures RescuedTasks(nodes, tasks, done + {id}, now) ==
            if NewlyDead(nodes[id], now) then RescuedFrom(RescuedTasks(nodes, tasks, done, now), id, now)
            else RescuedTasks(nodes, tasks, done, now)
  {}

  /** The node is as before, or has recovered. */
  predicate Recovered(n: NodeValue, m: NodeValue) { m == n || m == n.(status := "Healthy") }

  /** Without a node that got worse, the tasks stay and the nodes at most recover. */
  lemma OnlyRecoveries(nodes: Nodes, tasks: Tasks, now: int)
    requires forall id :: id in nodes ==> !Demoted(nodes[id], now)
    ensures RescuedTasks(nodes, tasks, nodes.Keys, now) == tasks
    ensures forall id :: id in nodes ==> Recovered(nodes[id], CheckedNodes(nodes, nodes.Keys, now)[id])
  {}

  lemma NothingChecked(nodes: Nodes, tasks: Tasks, now: int)
    ensures CheckedNodes(nodes, {}, now) == nodes && RescuedTasks(nodes, tasks, {}, now) == tasks
  {}

  // ---------- assignment ----------

  predicate Pending(t: TaskValue) { t.targetStatus == "Running" && t.assignedNode == "" }

  function Assigned(t: TaskValue, node: string, now: int): TaskValue {
    t.(assignedNode := node, currentStatus := "Scheduled", updatedAt := now)
  }

  /** The tasks given to a node since `before`. */
  function Given(before: Tasks, tasks: Tasks, node: string): set<string> {
    set k | k in tasks && k in before && before[k].assignedNode == "" && tasks[k].assignedNode == node && node != ""
  }

  /** The task is as before except for having been placed on a healthy node. */
  predicate PlacedOn(nodes: Nodes, before: TaskValue, t: TaskValue, now: int) {
    Healthy(nodes, t.assignedNode) && t.assignedNode != "" && t == Assigned(before, t.assignedNode, now)
  }

  ghost predicate TasksAssigned(nodes: Nodes, before: Tasks, tasks: Tasks, tried: set<string>, now: int) {
    && tasks.Keys == before.Keys && tried <= tasks.Keys
    && (forall k :: k in tasks && k !in tried ==> tasks[k] == before[k])
    && (forall k ::
        k in tried ==> Pending(before[k]) && (tasks[k] == before[k] || PlacedOn(nodes, before[k], tasks[k], now)))
  }

  ghost predicate CountsRaised(nodesBefore: Nodes, nodes: Nodes, before: Tasks, tasks: Tasks) {
    && nodes.Keys == nodesBefore.Keys
    && forall id :: id in nodes ==>
         nodes[id] == nodesBefore[id].(activeCount := nodesBefore[id].activeCount + |Given(before, tasks, id)|)
  }

  ghost predicate Balanced(nodes: Nodes, before: Tasks, tasks: Tasks) {
    forall id, other :: id in nodes && Given(before, tasks, id) != {} && Healthy(nodes, other) ==>
      Score(nodes[id]) >= Score(nodes[other]) - 5
  }

  /** Why a task may stay pending: nobody has a positive score, or the best node is the one without a name. */
  predicate Exhausted(nodes: Nodes) { AllZero(nodes) || Best(nodes, "") }

  ghost predicate LeftForAReason(nodes: Nodes, before: Tasks, tasks: Tasks, tried: set<string>) {
    (exists k :: k in tried && k in tasks && k in before && tasks[k] == before[k]) ==> Exhausted(nodes)
  }

  /** What holds while the tasks in `tried` have been offered to the nodes. */
  ghost predicate Offered(nodesBefore: Nodes, before: Tasks, nodes: Nodes, tasks: Tasks, tried: set<string>, now: int) {
    && TasksAssigned(nodes, before, tasks, tried, now)
    && CountsRaised(nodesBefore, nodes, before, tasks)
    && Balanced(nodes, before, tasks)
    && LeftForAReason(nodes, before, tasks, tried)
  }

  lemma NothingOffered(nodes: Nodes, tasks: Tasks, now: int)
    ensures Offered(nodes, tasks, nodes, tasks, {}, now)
  {
    hide Score;
    forall id | id in nodes ensures Given(tasks, tasks, id) == {} {}
  }

  lemma TaskKept(nodesBefore: Nodes, before: Tasks, nodes: Nodes, tasks: Tasks, tried: set<string>, now: int, k: string)
    requires Offered(nodesBefore, before, nodes, tasks, tried, now) && k in tasks && k !in tried && Pending(before[k])
    requires Exhausted(nodes)
    ensures Offered(nodesBefore, before, nodes, tasks, tried + {k}, now)
  {
    hide Score, Exhausted;
  }

  function Raised(nodes: Nodes, id: string): Nodes
    requires id in nodes
  {
    nodes[id := nodes[id].(activeCount := nodes[id].activeCount + 1)]
  }

  lemma GivenTo(before: Tasks, tasks: Tasks, k: string, target: string, now: int)
    requires k in tasks && k in before && tasks[k] == before[k] && Pending(before[k]) && target != ""
    ensures var given := tasks[k := Assigned(tasks[k], target, now)];
            && Given(before, given, target) == Given(before, tasks, target) + {k} && k !in Given(before, tasks, target)
            && forall id :: id != target ==> Given(before, given, id) == Given(before, tasks, id)
  {}

  lemma RaisedScores(nodes: Nodes, target: string)
    requires target in nodes
    ensures Raised(nodes, target).Keys == nodes.Keys
    ensures forall id :: id in nodes ==>
              && Score(Raised(nodes, target)[id]) <= Score(nodes[id]) <= Score(Raised(nodes, target)[id]) + 5
              && (id != target ==> Raised(nodes, target)[id] == nodes[id])
              && (Healthy(Raised(nodes, target), id) <==> Healthy(nodes, id))
  {
    hide Score;
    OneMore(nodes[target]);
  }

  lemma ExhaustedStays(nodes: Nodes, target: string)
    requires Exhausted(nodes) && target != "" && Best(nodes, target) && Score(nodes[target]) > 0
    ensures Exhausted(Raised(nodes, target))
  {
    hide Score, Raised;
    RaisedScores(nodes, target);
  }

  lemma ReasonStays(nodes: Nodes, before: Tasks, tasks: Tasks, tried: set<string>, now: int, k: string, target: string)
    requires LeftForAReason(nodes, before, tasks, tried) && k in tasks && k in before && before[k].assignedNode == ""
    requires target != "" && Best(nodes, target) && Score(nodes[target]) > 0
    ensures LeftForAReason(Raised(nodes, target), before, tasks[k := Assigned(tasks[k], target, now)], tried + {k})
  {
    hide Score, Raised, Best, Exhausted;
    var given := tasks[k := Assigned(tasks[k], target, now)];
    if other :| other in tried + {k} && other in given && other in before && given[other] == before[other] {
      assert tasks[other] == before[other];
      ExhaustedStays(nodes, target);
    }
  }

  lemma BalanceStays(nodes: Nodes, before: Tasks, tasks: Tasks, given: Tasks, target: string)
    requires Balanced(nodes, before, tasks) && Best(nodes, target)
    requires forall id :: id != target ==> Given(before, given, id) == Given(before, tasks, id)
    ensures Balanced(Raised(nodes, target), before, given)
  {
    hide Score, Given, Raised;
    RaisedScores(nodes, target);
  }

  lemma PlacementStays(
    nodes: Nodes, before: Tasks, tasks: Tasks, tried: set<string>, now: int, k: string, target: string)
    requires TasksAssigned(nodes, before, tasks, tried, now) && k in tasks && k !in tried && Pending(before[k])
    requires target != "" && Healthy(nodes, target)
    ensures TasksAssigned(Raised(nodes, target), before, tasks[k := Assigned(tasks[k], target, now)], tried + {k}, now)
  {
    hide Score, Raised;
    RaisedScores(nodes, target);
  }

  lemma TaskAssigned(
    nodesBefore: Nodes, before: Tasks, nodes: Nodes, tasks: Tasks, tried: set<string>, now: int, k: string,
    target: string)
    requires Offered(nodesBefore, before, nodes, tasks, tried, now) && k in tasks && k !in tried && Pending(before[k])
    requires target != "" && Best(nodes, target) && Score(nodes[target]) > 0
    ensures Offered(nodesBefore, before, Raised(nodes, target), tasks[k := Assigned(tasks[k], target, now)],
            tried + {k}, now)
  {
    hide Score, Given, Raised, TasksAssigned, CountsRaised, Balanced, LeftForAReason;
    var given := tasks[k := Assigned(tasks[k], target, now)];
    Untried(nodes, before, tasks, tried, now, k);
    GivenTo(before, tasks, k, target, now);
    PlacementStays(nodes, before, tasks, tried, now, k, target);
    RaisedCounts(nodesBefore, nodes, before, tasks, given, k, target);
    BalanceStays(nodes, before, tasks, given, target);
    ReasonStays(nodes, before, tasks, tried, now, k, target);
  }

  lemma Untried(nodes: Nodes, before: Tasks, tasks: Tasks, tried: set<string>, now: int, k: string)
    requires TasksAssigned(nodes, before, tasks, tried, now) && k in tasks && k !in tried
    ensures k in before && tasks[k] == before[k]
  {}

  lemma RaisedCounts(
    nodesBefore: Nodes, nodes: Nodes, before: Tasks, tasks: Tasks, given: Tasks, k: string, target: string)
    requires CountsRaised(nodesBefore, nodes, before, tasks) && target in nodes
    requires Given(before, given, target) == Given(before, tasks, target) + {k} && k !in Given(before, tasks, target)
    requires forall id :: id != target ==> Given(before, given, id) == Given(before, tasks, id)
    ensures CountsRaised(nodesBefore, Raised(nodes, target), before, given)
  {
    hide Given;
  }

  // ---------- a round of assignments ----------

  /** The keys of the pending tasks. */
  function Waiting(tasks: Tasks): set<string> { set k | k in tasks && Pending(tasks[k]) }

  /** What the choice of a node may come to: a best node with a positive score, or, reading as none, the empty name. */
  predicate MayPick(nodes: Nodes, pick: string) {
    if pick == "" then Exhausted(nodes) else Best(nodes, pick) && Score(nodes[pick]) > 0
  }

  function NodesAfter(nodes: Nodes, picks: seq<string>): Nodes {
    if picks == [] then nodes
    else
      var n, pick := NodesAfter(nodes, picks[..|picks| - 1]), picks[|picks| - 1];
      if pick != "" && pick in n then Raised(n, pick) else n
  }

  /** The tasks after those in `order` went to the nodes picked. */
  function TasksAfter(tasks: Tasks, order: seq<string>, picks: seq<string>, now: int): Tasks
    requires |order| == |picks|
    decreases |picks|
  {
    if picks == [] then tasks
    else
      var n := |picks| - 1;
      var t := TasksAfter(tasks, order[..n], picks[..n], now);
      if picks[n] != "" && order[n] in t then t[order[n] := Assigned(t[order[n]], picks[n], now)] else t
  }

  lemma OneMorePick(
    nodes: Nodes, tasks: Tasks, order: seq<string>, picks: seq<string>, k: string, pick: string, now: int)
    requires |order| == |picks|
    ensures NodesAfter(nodes, picks + [pick])
            == (var n := NodesAfter(nodes, picks); if pick != "" && pick in n then Raised(n, pick) else n)
    ensures TasksAfter(tasks, order + [k], picks + [pick], now)
            == (var t := TasksAfter(tasks, order, picks, now);
                if pick != "" && k in t then t[k := Assigned(t[k], pick, now)] else t)
  {
    hide Raised, Assigned;
    assert (picks + [pick])[..|picks|] == picks && (order + [k])[..|order|] == order;
  }

  predicate PicksOk(nodes: Nodes, picks: seq<string>) {
    forall i :: 0 <= i < |picks| ==> MayPick(NodesAfter(nodes, picks[..i]), picks[i])
  }

  /** Every pending task is offered once, in some order, each time to what may be picked at that moment. */
  ghost predicate Round(nodes: Nodes, tasks: Tasks, order: seq<string>, picks: seq<string>) {
    && |order| == |picks| && Distinct(order) && (forall k :: k in order <==> k in Waiting(tasks))
    && PicksOk(nodes, picks)
  }

  lemma RoundLengths(nodes: Nodes, tasks: Tasks, order: seq<string>, picks: seq<string>)
    requires Round(nodes, tasks, order, picks)
    ensures |order| == |picks|
  {}

  function First(keys: seq<string>, n: nat): set<string>
    requires n <= |keys|
  {
    set i | 0 <= i < n :: keys[i]
  }

  lemma FirstGrows(keys: seq<string>, n: nat)
    requires n < |keys| && Distinct(keys)
    ensures First(keys, n + 1) == First(keys, n) + {keys[n]} && keys[n] !in First(keys, n)
  {}

  lemma FirstOfPrefix(keys: seq<string>, n: nat)
    requires n < |keys|
    ensures First(keys[..n], n) == First(keys, n)
  {}

  lemma IsWaiting(tasks: Tasks, k: string)
    requires k in Waiting(tasks)
    ensures k in tasks && Pending(tasks[k])
  {}

  lemma IsBest(nodes: Nodes, id: string)
    requires Best(nodes, id)
    ensures id in nodes
  {}

  lemma {:induction false} PicksAreOffers(nodes: Nodes, tasks: Tasks, order: seq<string>, picks: seq<string>, now: int)
    requires |order| == |picks| && Distinct(order) && (forall k :: k in order ==> k in Waiting(tasks))
    requires PicksOk(nodes, picks)
    ensures Offered(nodes, tasks, NodesAfter(nodes, picks), TasksAfter(tasks, order, picks, now), First(order, |order|),
            now)
    decreases |picks|
  {
    hide Offered, Raised, Exhausted, Best, Score, Waiting;
    if picks == [] {
      NothingOffered(nodes, tasks, now);
      assert First(order, 0) == {};
    } else {
      var n := |picks| - 1;
      var k, pick := order[n], picks[n];
      var given := TasksAfter(tasks, order[..n], picks[..n], now);
      assert forall i :: 0 <= i < n ==> picks[..n][..i] == picks[..i];
      PicksAreOffers(nodes, tasks, order[..n], picks[..n], now);
      FirstOfPrefix(order, n);
      FirstGrows(order, n);
      IsWaiting(tasks, k);
      OfferedKeys(nodes, tasks, NodesAfter(nodes, picks[..n]), given, First(order, n), now);
      if pick == "" {
        TaskKept(nodes, tasks, NodesAfter(nodes, picks[..n]), given, First(order, n), now, k);
      } else {
        IsBest(NodesAfter(nodes, picks[..n]), pick);
        TaskAssigned(nodes, tasks, NodesAfter(nodes, picks[..n]), given, First(order, n), now, k, pick);
      }
    }
  }

  lemma OfferedKeys(nodesBefore: Nodes, before: Tasks, nodes: Nodes, tasks: Tasks, tried: set<string>, now: int)
    requires Offered(nodesBefore, before, nodes, tasks, tried, now)
    ensures tasks.Keys == before.Keys
  {
    hide CountsRaised, Balanced, LeftForAReason;
  }

  /** What a whole round leaves: balance, counts raised by the tasks given, and a reason for every task left pending. */
  lemma RoundIsOffered(nodes: Nodes, tasks: Tasks, order: seq<string>, picks: seq<string>, now: int)
    requires Round(nodes, tasks, order, picks)
    ensures Offered(nodes, tasks, NodesAfter(nodes, picks), TasksAfter(tasks, order, picks, now), Waiting(tasks), now)
  {
    hide Offered, PicksOk, Waiting;
    PicksAreOffers(nodes, tasks, order, picks, now);
    assert First(order, |order|) == Waiting(tasks);
  }

  lemma {:induction false} NothingPicked(nodes: Nodes, tasks: Tasks, order: seq<string>, picks: seq<string>, now: int)
    requires |order| == |picks| && forall i :: 0 <= i < |picks| ==> picks[i] == ""
    ensures NodesAfter(nodes, picks) == nodes && TasksAfter(tasks, order, picks, now) == tasks
    decreases |picks|
  {
    if picks != [] { NothingPicked(nodes, tasks, order[..|picks| - 1], picks[..|picks| - 1], now); }
  }

  // ---------- which tasks stay pending ----------

  /** A healthy node of empty name with a score: the choice may fall on it, and then reads as no node at all. */
  predicate NamelessServes(nodes: Nodes) { Healthy(nodes, "") && Score(nodes[""]) > 0 }

  /**
   If a task is left pending, then every healthy node scores zero exactly when no node of empty name
   was healthy with a score before the round.
   */
  lemma LeftPendingExactly(
    nodesBefore: Nodes, before: Tasks, nodes: Nodes, tasks: Tasks, tried: set<string>, now: int, k: string)
    requires Offered(nodesBefore, before, nodes, tasks, tried, now) && k in tried && Pending(tasks[k])
    ensures AllZero(nodes) <==> !NamelessServes(nodesBefore)
  {
    hide Score, Balanced;
    assert tasks[k] == before[k];
    assert Given(before, tasks, "") == {};
    assert "" in nodes ==> nodes[""] == nodesBefore[""];
  }

  const STARVING: Nodes :=
    map["" := NodeValue(0.0, 2048, 0, 0, "Healthy"), "a" := NodeValue(50.0, 2048, 0, 0, "Healthy")]
  const STARVED: Tasks := map["t" := TaskValue("Running", "Pending", "", 0)]

  /** A round that must leave its only task pending, although a node with a name scores 60. */
  lemma NamelessNodeStarves(order: seq<string>, picks: seq<string>, now: int)
    ensures Round(STARVING, STARVED, ["t"], [""]) && !AllZero(STARVING)
    ensures Round(STARVING, STARVED, order, picks) ==>
              TasksAfter(STARVED, order, picks, now) == STARVED && NodesAfter(STARVING, picks) == STARVING
  {
    StarvingScores();
    assert NodesAfter(STARVING, []) == STARVING;
    assert [""][..0] == [];
    assert "t" in Waiting(STARVED);
    if Round(STARVING, STARVED, order, picks) {
      StarvingPicks(picks);
      NothingPicked(STARVING, STARVED, order, picks, now);
    }
  }

  lemma {:induction false} StarvingPicks(picks: seq<string>)
    requires PicksOk(STARVING, picks)
    ensures forall i :: 0 <= i < |picks| ==> picks[i] == ""
  {
    hide MayPick, NodesAfter;
    if picks != [] {
      var n := |picks| - 1;
      assert forall i :: 0 <= i < n ==> picks[..n][..i] == picks[..i];
      StarvingPicks(picks[..n]);
      NothingPicked(STARVING, map[], picks[..n], picks[..n], 0);
      assert MayPick(NodesAfter(STARVING, picks[..n]), picks[n]);
      StarvingPick(picks[n]);
      assert forall i :: 0 <= i < n ==> picks[i] == picks[..n][i];
    }
  }

  lemma StarvingPick(pick: string)
    requires MayPick(STARVING, pick)
    ensures pick == ""
  {
    hide Score;
    StarvingScores();
  }

  lemma StarvingScores()
    ensures Score(STARVING[""]) == 110 && Score(STARVING["a"]) == 60
  {
    assert Truncated(100.0 - 0.0) == 100 && Truncated(100.0 - 50.0) == 50;
  }

  /** The counts of some nodes, added up. */
  ghost function Total(nodes: Nodes, ids: set<string>): int
    requires ids <= nodes.Keys
  {
    if ids == {} then 0
    else
      var id :| id in ids;
      nodes[id].activeCount + Total(nodes, ids - {id})
  }

  lemma {:induction false} TotalWithout(nodes: Nodes, ids: set<string>, id: string)
    requires ids <= nodes.Keys && id in ids
    ensures Total(nodes, ids) == nodes[id].activeCount + Total(nodes, ids - {id})
  {
    var first :| first in ids && Total(nodes, ids) == nodes[first].activeCount + Total(nodes, ids - {first});
    if first != id {
      TotalWithout(nodes, ids - {first}, id);
      TotalWithout(nodes, ids - {id}, first);
      assert ids - {first} - {id} == ids - {id} - {first};
    }
  }

  /** The tasks placed on any of some nodes. */
  function PlacedAmong(before: Tasks, tasks: Tasks, ids: set<string>): set<string> {
    set k | k in tasks && k in before && before[k].assignedNode == "" && tasks[k].assignedNode in ids
      && tasks[k].assignedNode != ""
  }

  /** The counts rise by as many as tasks were placed. */
  lemma {:induction false} CountsAddUp(nodesBefore: Nodes, nodes: Nodes, before: Tasks, tasks: Tasks, ids: set<string>)
    requires CountsRaised(nodesBefore, nodes, before, tasks) && ids <= nodes.Keys
    ensures Total(nodes, ids) == Total(nodesBefore, ids) + |PlacedAmong(before, tasks, ids)|
    decreases ids
  {
    hide Given, PlacedAmong;
    if ids == {} {
      NonePlaced(before, tasks);
    } else {
      var id :| id in ids;
      CountsAddUp(nodesBefore, nodes, before, tasks, ids - {id});
      TotalWithout(nodes, ids, id);
      TotalWithout(nodesBefore, ids, id);
      PlacedApart(before, tasks, ids, id);
    }
  }

  lemma NonePlaced(before: Tasks, tasks: Tasks)
    ensures PlacedAmong(before, tasks, {}) == {}
  {}

  lemma PlacedApart(before: Tasks, tasks: Tasks, ids: set<string>, id: string)
    requires id in ids
    ensures |PlacedAmong(before, tasks, ids)| == |PlacedAmong(before, tasks, ids - {id})| + |Given(before, tasks, id)|
  {
    var others, mine := PlacedAmong(before, tasks, ids - {id}), Given(before, tasks, id);
    assert PlacedAmong(before, tasks, ids) == others + mine && others !! mine;
  }

  // ---------- dead nodes hold no tasks ----------

  predicate NoneOnDead(nodes: Nodes, tasks: Tasks) {
    forall k :: k in tasks && tasks[k].assignedNode != "" && tasks[k].assignedNode in nodes ==>
      nodes[tasks[k].assignedNode].status != "Dead"
  }

  predicate Finished(t: TaskValue) { t.targetStatus == "Stopped" && t.currentStatus == "Stopped" }

  function Unfinished(tasks: Tasks): Tasks { map k | k in tasks && !Finished(tasks[k]) :: tasks[k] }

  lemma UnfinishedLeft(before: Tasks, tasks: Tasks)
    requires forall k :: k in tasks ==> k in before && tasks[k] == before[k]
    requires forall k :: k in before ==> (k in tasks <==> !Finished(before[k]))
    ensures tasks == Unfinished(before) && (tasks != before <==> tasks.Keys != before.Keys)
  {
    hide Finished;
  }

  /** One tick, from health check to cleanup, given the order and the picks of its round. */
  ghost predicate Ticked(
    nodesBefore: Nodes, before: Tasks, order: seq<string>, picks: seq<string>, nodes: Nodes, tasks: Tasks, now: int)
  {
    var checked, rescued :=
      CheckedNodes(nodesBefore, nodesBefore.Keys, now), RescuedTasks(nodesBefore, before, nodesBefore.Keys, now);
    && Round(checked, rescued, order, picks)
    && nodes == NodesAfter(checked, picks) && tasks == Unfinished(TasksAfter(rescued, order, picks, now))
  }

  /** What makes a tick worth saving: a node that got worse, a task placed, or a task dropped. */
  ghost predicate WorthSaving(nodesBefore: Nodes, before: Tasks, order: seq<string>, picks: seq<string>, now: int)
    requires |order| == |picks|
  {
    var offered := TasksAfter(RescuedTasks(nodesBefore, before, nodesBefore.Keys, now), order, picks, now);
    || (exists id :: id in nodesBefore && Demoted(nodesBefore[id], now))
    || (exists i :: 0 <= i < |picks| && picks[i] != "")
    || Unfinished(offered) != offered
  }

  /** The tick changes a task, or does more to a node than let it recover. */
  ghost predicate Changes(nodesBefore: Nodes, before: Tasks, nodes: Nodes, tasks: Tasks) {
    tasks != before || nodes.Keys != nodesBefore.Keys
    || exists id :: id in nodes && !Recovered(nodesBefore[id], nodes[id])
  }

  /** A task offered and placed is where it was placed, since every task is offered once. */
  lemma {:induction false} PickPlaces(tasks: Tasks, order: seq<string>, picks: seq<string>, now: int, i: nat)
    requires |order| == |picks| && Distinct(order) && i < |picks| && picks[i] != "" && order[i] in tasks
    ensures var t := TasksAfter(tasks, order, picks, now);
            order[i] in t && t[order[i]] == Assigned(tasks[order[i]], picks[i], now)
    decreases |picks|
  {
    hide Assigned;
    var n := |picks| - 1;
    if i < n {
      PickPlaces(tasks, order[..n], picks[..n], now, i);
    } else {
      UnofferedStays(tasks, order[..n], picks[..n], now, order[n]);
    }
  }

  lemma {:induction false} UnofferedStays(tasks: Tasks, order: seq<string>, picks: seq<string>, now: int, k: string)
    requires |order| == |picks| && k !in order && k in tasks
    ensures var t := TasksAfter(tasks, order, picks, now); k in t && t[k] == tasks[k]
    decreases |picks|
  {
    hide Assigned;
    if picks != [] { UnofferedStays(tasks, order[..|picks| - 1], picks[..|picks| - 1], now, k); }
  }

  /** A tick is worth saving exactly when it changes a task or does more to a node than let it recover. */
  lemma SavedExactly(
    nodesBefore: Nodes, before: Tasks, order: seq<string>, picks: seq<string>, nodes: Nodes, tasks: Tasks, now: int)
    requires Ticked(nodesBefore, before, order, picks, nodes, tasks, now)
    ensures |order| == |picks|
    ensures WorthSaving(nodesBefore, before, order, picks, now) <==> Changes(nodesBefore, before, nodes, tasks)
  {
    hide Offered, CheckedNodes, RescuedTasks, NodesAfter, TasksAfter, PicksOk, Finished, Demoted, Recovered, Assigned,
      Waiting, Unfinished;
    var checked, rescued :=
      CheckedNodes(nodesBefore, nodesBefore.Keys, now), RescuedTasks(nodesBefore, before, nodesBefore.Keys, now);
    var offered := TasksAfter(rescued, order, picks, now);
    RoundIsOffered(checked, rescued, order, picks, now);
    SameKeys(nodesBefore, before, order, picks, nodes, now);
    if id :| id in nodesBefore && Demoted(nodesBefore[id], now) {
      DemotedStays(nodesBefore, before, order, picks, nodes, now, id);
    } else {
      OnlyRecoveries(nodesBefore, before, now);
      if i :| 0 <= i < |picks| && picks[i] != "" {
        IsWaiting(rescued, order[i]);
        PickPlaces(rescued, order, picks, now, i);
        PlacedShows(before, offered, order[i], picks[i], now);
      } else {
        NothingPicked(checked, rescued, order, picks, now);
        DroppedShows(offered);
      }
    }
  }

  lemma PlacedShows(before: Tasks, offered: Tasks, k: string, pick: string, now: int)
    requires k in before && Pending(before[k]) && k in offered && offered[k] == Assigned(before[k], pick, now)
    requires pick != ""
    ensures Unfinished(offered) != before
  {
    assert k in Unfinished(offered);
  }

  lemma DroppedShows(tasks: Tasks)
    ensures Unfinished(tasks) != tasks <==> exists k :: k in tasks && Finished(tasks[k])
  {
    if k :| k in tasks && Finished(tasks[k]) { assert k !in Unfinished(tasks); }
  }

  lemma SameKeys(nodesBefore: Nodes, before: Tasks, order: seq<string>, picks: seq<string>, nodes: Nodes, now: int)
    requires |order| == |picks| && nodes == NodesAfter(CheckedNodes(nodesBefore, nodesBefore.Keys, now), picks)
    requires Offered(CheckedNodes(nodesBefore, nodesBefore.Keys, now),
             RescuedTasks(nodesBefore, before, nodesBefore.Keys, now), nodes,
                     TasksAfter(RescuedTasks(nodesBefore, before, nodesBefore.Keys, now), order, picks, now),
                     Waiting(RescuedTasks(nodesBefore, before, nodesBefore.Keys, now)), now)
    ensures nodes.Keys == nodesBefore.Keys
    ensures forall id :: id in nodes ==> nodes[id].status == CheckedStatus(nodesBefore[id], now)
  {
    hide Balanced, LeftForAReason, TasksAfter, RescuedTasks, NodesAfter, TasksAssigned, Waiting;
  }

  lemma DemotedStays(
    nodesBefore: Nodes, before: Tasks, order: seq<string>, picks: seq<string>, nodes: Nodes, now: int, id: string)
    requires nodes.Keys == nodesBefore.Keys && id in nodes && Demoted(nodesBefore[id], now)
    requires nodes[id].status == CheckedStatus(nodesBefore[id], now)
    ensures !Recovered(nodesBefore[id], nodes[id])
  {}

  lemma CheckKeepsNoneOnDead(nodes: Nodes, tasks: Tasks, now: int)
    requires NoneOnDead(nodes, tasks)
    ensures NoneOnDead(CheckedNodes(nodes, nodes.Keys, now), RescuedTasks(nodes, tasks, nodes.Keys, now))
  {}

  lemma OfferKeepsNoneOnDead(
    nodesBefore: Nodes, before: Tasks, nodes: Nodes, tasks: Tasks, tried: set<string>, now: int)
    requires NoneOnDead(nodesBefore, before) && Offered(nodesBefore, before, nodes, tasks, tried, now)
    ensures NoneOnDead(nodes, tasks)
  {
    hide Balanced, LeftForAReason;
    forall k | k in tasks && tasks[k].assignedNode != "" && tasks[k].assignedNode in nodes
      ensures nodes[tasks[k].assignedNode].status != "Dead"
    {
      assert nodes[tasks[k].assignedNode].status == nodesBefore[tasks[k].assignedNode].status;
      if k in tried && tasks[k] != before[k] { assert PlacedOn(nodes, before[k], tasks[k], now); }
    }
  }

  /** Every tick keeps dead nodes free of tasks; if it leaves a task pending, all healthy nodes score zero exactly when
      the health check found no node of empty name healthy with a score. */
  lemma TickKeeps(
    nodesBefore: Nodes, before: Tasks, order: seq<string>, picks: seq<string>, nodes: Nodes, tasks: Tasks, now: int)
    requires NoneOnDead(nodesBefore, before) && Ticked(nodesBefore, before, order, picks, nodes, tasks, now)
    ensures NoneOnDead(nodes, tasks)
    ensures (exists k :: k in tasks && Pending(tasks[k])) ==>
              (AllZero(nodes) <==> !NamelessServes(CheckedNodes(nodesBefore, nodesBefore.Keys, now)))
  {
    hide Offered, CheckedNodes, RescuedTasks, AllZero, NamelessServes, Round, NodesAfter, TasksAfter;
    var checked, rescued :=
      CheckedNodes(nodesBefore, nodesBefore.Keys, now), RescuedTasks(nodesBefore, before, nodesBefore.Keys, now);
    RoundLengths(checked, rescued, order, picks);
    RoundIsOffered(checked, rescued, order, picks, now);
    var offered := TasksAfter(rescued, order, picks, now);
    CheckKeepsNoneOnDead(nodesBefore, before, now);
    OfferKeepsNoneOnDead(checked, rescued, nodes, offered, Waiting(rescued), now);
    if k :| k in tasks && Pending(tasks[k]) {
      WasWaiting(checked, rescued, nodes, offered, now, k);
      LeftPendingExactly(checked, rescued, nodes, offered, Waiting(rescued), now, k);
    }
  }

  lemma WasWaiting(nodesBefore: Nodes, before: Tasks, nodes: Nodes, tasks: Tasks, now: int, k: string)
    requires Offered(nodesBefore, before, nodes, tasks, Waiting(before), now) && k in tasks && Pending(tasks[k])
    ensures k in Waiting(before)
  {
    hide Balanced, LeftForAReason, CountsRaised;
  }
}
