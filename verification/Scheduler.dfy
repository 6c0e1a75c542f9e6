/** The cluster as it runs: nodes and tasks are shared objects that a tick changes in place. */
module Scheduler {
  import opened Basics
  import opened Scheduling

  class Node {
    var cpuUsage: real
    var memFreeMB: int
    var activeCount: int
    var lastSeen: int
    var status: string

    ghost function Value(): NodeValue reads this { NodeValue(cpuUsage, memFreeMB, activeCount, lastSeen, status) }

    constructor (cpuUsage: real, memFreeMB: int, activeCount: int, lastSeen: int, status: string)
      ensures Value() == NodeValue(cpuUsage, memFreeMB, activeCount, lastSeen, status)
    {
      this.cpuUsage, this.memFreeMB, this.activeCount := cpuUsage, memFreeMB, activeCount;
      this.lastSeen, this.status := lastSeen, status;
    }
  }

  class Task {
    var targetStatus: string
    var currentStatus: string
    var assignedNode: string
    var updatedAt: int

    ghost function Value(): TaskValue reads this { TaskValue(targetStatus, currentStatus, assignedNode, updatedAt) }

    constructor (targetStatus: string, currentStatus: string, assignedNode: string, updatedAt: int)
      ensures Value() == TaskValue(targetStatus, currentStatus, assignedNode, updatedAt)
    {
      this.targetStatus, this.currentStatus, this.assignedNode, this.updatedAt :=
        targetStatus, currentStatus, assignedNode, updatedAt;
    }

    method Rescue(now: int)
      modifies this
      ensures Value() == Rescued(old(Value()), now)
    {
      assignedNode := "";
      currentStatus := "Pending";
      updatedAt := now;
    }

    method Assign(node: string, now: int)
      modifies this
      ensures Value() == Assigned(old(Value()), node, now)
    {
      assignedNode := node;
      currentStatus := "Scheduled";
      updatedAt := now;
    }
  }

  method CalculateScore(n: Node) returns (score: int)
    ensures score == Score(n.Value())
  {
    score := Truncated(100.0 - n.cpuUsage);
    score := score - n.activeCount * 5;
    if n.memFreeMB > 1024 {
      score := score + 10;
    } else if n.memFreeMB < 128 {
      score := score - 20;
    }
    if score < 0 { return 0; }
  }

  predicate StoppedTask(t: Task)
    reads t
    ensures StoppedTask(t) <==> Finished(t.Value())
  {
    t.targetStatus == "Stopped" && t.currentStatus == "Stopped"
  }

  class ClusterState {
    var tasks: map<string, Task>
    var nodes: map<string, Node>

    /** No object is in a map twice. */
    ghost predicate Valid() reads this {
      && (forall a, b :: a in tasks && b in tasks && a != b ==> tasks[a] != tasks[b])
      && (forall a, b :: a in nodes && b in nodes && a != b ==> nodes[a] != nodes[b])
    }

    ghost function NodeValues(): Nodes reads this, nodes.Values { map id | id in nodes :: nodes[id].Value() }

    ghost function TaskValues(): Tasks reads this, tasks.Values { map k | k in tasks :: tasks[k].Value() }

    /** The first best node in whatever order the map is iterated. */
    method FindBestNode() returns (bestID: string)
      ensures bestID != "" ==> Best(NodeValues(), bestID) && Score(NodeValues()[bestID]) > 0
      ensures bestID == "" ==> Exhausted(NodeValues())
    {
      hide Score;
      bestID := "";
      var maxScore := -1;
      var ids := nodes.Keys;
      while ids != {}
        invariant ids <= nodes.Keys && maxScore >= -1
        invariant maxScore == -1 ==> bestID == ""
        invariant maxScore >= 0 ==> Healthy(NodeValues(), bestID) && Score(NodeValues()[bestID]) == maxScore
        invariant forall id ::
                  id in nodes && id !in ids && Healthy(NodeValues(), id) ==> Score(NodeValues()[id]) <= maxScore
      {
        var id :| id in ids;
        ids := ids - {id};
        var node := nodes[id];
        if node.status != "Healthy" { continue; }
        var score := CalculateScore(node);
        if score > maxScore {
          maxScore := score;
          bestID := id;
        }
      }
      if maxScore <= 0 { return ""; }
    }

    /** The tasks of a node found dead become pending again. */
    method RescueTasks(node: string, now: int)
      requires Valid()
      modifies tasks.Values
      ensures TaskValues() == RescuedFrom(old(TaskValues()), node, now) && NodeValues() == old(NodeValues())
    {
      hide RescuedAmong, RescuedFrom, Rescued, NodeValues, TaskValues;
      ghost var before := TaskValues();
      var keys := tasks.Keys;
      KeysMatch();
      RescuedAllOrNone(before, node, now);
      assert tasks.Keys - keys == {};
      while keys != {}
        invariant keys <= tasks.Keys && NodeValues() == old(NodeValues())
        invariant TaskValues() == RescuedAmong(before, tasks.Keys - keys, node, now)
      {
        var k :| k in keys;
        RescuedNext(before, tasks.Keys - keys, k, node, now);
        assert tasks.Keys - (keys - {k}) == tasks.Keys - keys + {k};
        keys := keys - {k};
        TaskValueOf(k);
        if tasks[k].assignedNode == node { RescueTask(k, now); }
      }
      assert tasks.Keys - keys == before.Keys;
    }

    method RescueTask(k: string, now: int)
      requires Valid() && k in tasks
      modifies tasks.Values
      ensures TaskValues() == old(TaskValues())[k := Rescued(old(TaskValues())[k], now)]
      ensures NodeValues() == old(NodeValues())
    {
      tasks[k].Rescue(now);
    }

    method SetStatus(id: string, status: string)
      requires Valid() && id in nodes
      modifies nodes.Values
      ensures NodeValues() == old(NodeValues())[id := old(NodeValues())[id].(status := status)]
      ensures TaskValues() == old(TaskValues())
    {
      nodes[id].status := status;
    }

    /** Marks one node by how long it has been silent; a node found dead loses its tasks. */
    method CheckNode(id: string, now: int) returns (dirty: bool, active: bool)
      requires Valid() && id in nodes
      modifies nodes.Values, tasks.Values
      ensures NodeValues() == old(NodeValues())[id := Checked(old(NodeValues())[id], now)]
      ensures active <==> Healthy(NodeValues(), id)
      ensures TaskValues()
              == if NewlyDead(old(NodeValues())[id], now) then RescuedFrom(old(TaskValues()), id, now)
              else old(TaskValues())
      ensures dirty <==> Demoted(old(NodeValues())[id], now)
    {
      hide RescuedFrom, NodeValues, TaskValues;
      NodeValueOf(id);
      var node := nodes[id];
      var since := now - node.lastSeen;
      dirty, active := false, false;
      if since > EVICTION_TIMEOUT {
        if node.status != "Dead" {
          SetStatus(id, "Dead");
          dirty := true;
          RescueTasks(id, now);
        }
      } else if since > NODE_TIMEOUT {
        if node.status != "Unknown" {
          SetStatus(id, "Unknown");
          dirty := true;
        }
      } else {
        SetStatus(id, "Healthy");
        active := true;
      }
    }

    /** The health check of all nodes, reported as dirty exactly when some node got worse. */
    method CheckHealth(now: int) returns (dirty: bool, activeNodeCount: nat)
      requires Valid()
      modifies nodes.Values, tasks.Values
      ensures NodeValues() == CheckedNodes(old(NodeValues()), nodes.Keys, now)
      ensures TaskValues() == RescuedTasks(old(NodeValues()), old(TaskValues()), nodes.Keys, now)
      ensures activeNodeCount == 0 ==> forall id :: id in nodes ==> !Healthy(NodeValues(), id)
      ensures dirty <==> exists id :: id in nodes && Demoted(old(NodeValues())[id], now)
    {
      hide CheckedNodes, RescuedTasks, RescuedFrom, NodeValues, TaskValues, Demoted;
      ghost var nodesBefore, before := NodeValues(), TaskValues();
      dirty, activeNodeCount := false, 0;
      var ids := nodes.Keys;
      NothingChecked(nodesBefore, before, now);
      KeysMatch();
      assert nodes.Keys - ids == {};
      while ids != {}
        invariant ids <= nodes.Keys && NodeValues().Keys == nodes.Keys == nodesBefore.Keys
        invariant NodeValues() == CheckedNodes(nodesBefore, nodes.Keys - ids, now)
        invariant TaskValues() == RescuedTasks(nodesBefore, before, nodes.Keys - ids, now)
        invariant activeNodeCount == 0 ==> forall id :: id in nodes && id !in ids ==> !Healthy(NodeValues(), id)
        invariant dirty <==> exists id :: id in nodes && id !in ids && Demoted(nodesBefore[id], now)
      {
        var id :| id in ids;
        CheckedOneMore(nodesBefore, nodes.Keys - ids, id, now);
        RescuedOneMore(nodesBefore, before, nodes.Keys - ids, id, now);
        assert nodes.Keys - (ids - {id}) == nodes.Keys - ids + {id};
        ids := ids - {id};
        var changed, active := CheckNode(id, now);
        dirty := dirty || changed;
        if active { activeNodeCount := activeNodeCount + 1; }
      }
      assert nodes.Keys - ids == nodes.Keys;
    }

    lemma NodeValueOf(id: string)
      requires id in nodes
      ensures id in NodeValues() && NodeValues()[id] == nodes[id].Value()
    {}

    lemma TaskValueOf(k: string)
      requires k in tasks
      ensures k in TaskValues() && TaskValues()[k] == tasks[k].Value()
    {}

    lemma KeysMatch()
      ensures NodeValues().Keys == nodes.Keys && TaskValues().Keys == tasks.Keys
    {}

    method CollectPending() returns (pending: seq<string>)
      ensures forall k :: k in pending <==> k in Waiting(TaskValues())
      ensures forall i, j :: 0 <= i < j < |pending| ==> pending[i] != pending[j]
    {
      pending := [];
      var keys := tasks.Keys;
      while keys != {}
        invariant keys <= tasks.Keys
        invariant forall k :: k in pending <==> k in Waiting(TaskValues()) && k !in keys
        invariant forall i, j :: 0 <= i < j < |pending| ==> pending[i] != pending[j]
      {
        var k :| k in keys;
        keys := keys - {k};
        if tasks[k].targetStatus == "Running" && tasks[k].assignedNode == "" { pending := pending + [k]; }
      }
    }

    /** Gives one task to a node and counts it there. */
    method Place(k: string, target: string, now: int)
      requires Valid() && k in tasks && target in nodes
      modifies nodes.Values, tasks.Values
      ensures TaskValues() == old(TaskValues())[k := Assigned(old(TaskValues())[k], target, now)]
      ensures NodeValues() == Raised(old(NodeValues()), target)
    {
      tasks[k].Assign(target, now);
      nodes[target].activeCount := nodes[target].activeCount + 1;
    }

    /** Offers every pending task to the best node there is, one after the other. */
    method Schedule(now: int) returns (dirty: bool, ghost order: seq<string>, ghost picks: seq<string>)
      requires Valid()
      modifies nodes.Values, tasks.Values
      ensures Round(old(NodeValues()), old(TaskValues()), order, picks)
      ensures NodeValues() == NodesAfter(old(NodeValues()), picks)
      ensures TaskValues() == TasksAfter(old(TaskValues()), order, picks, now)
      ensures dirty <==> exists i :: 0 <= i < |picks| && picks[i] != ""
    {
      hide NodeValues, TaskValues, Waiting, MayPick, Exhausted, Score, Best, Raised, Assigned, NodesAfter, TasksAfter,
        PicksOk;
      ghost var nodesBefore, before := NodeValues(), TaskValues();
      var pending := CollectPending();
      dirty, order, picks := false, pending, [];
      KeysMatch();
      NothingPicked(nodesBefore, before, [], [], now);
      assert pending[..0] == [] && PicksOk(nodesBefore, []) by { NoPicksOk(nodesBefore); }
      for i := 0 to |pending|
        invariant order == pending && |picks| == i && PicksOk(nodesBefore, picks)
        invariant NodeValues() == NodesAfter(nodesBefore, picks)
        invariant TaskValues() == TasksAfter(before, pending[..i], picks, now)
        invariant NodeValues().Keys == nodes.Keys && TaskValues().Keys == tasks.Keys == before.Keys
        invariant dirty <==> exists j :: 0 <= j < |picks| && picks[j] != ""
      {
        var k := pending[i];
        IsWaiting(before, k);
        var target := FindBestNode();
        PickAllowed(NodeValues(), target);
        PicksGrow(nodesBefore, picks, target);
        OneMorePick(nodesBefore, before, pending[..i], picks, k, target, now);
        assert pending[..i + 1] == pending[..i] + [k];
        if target != "" {
          IsBest(NodeValues(), target);
          Place(k, target, now);
          dirty := true;
          KeysMatch();
        }
        ghost var more := picks + [target];
        assert more[i] == target && forall j :: 0 <= j < i ==> more[j] == picks[j];
        picks := more;
      }
      assert pending[..|pending|] == pending;
    }

    /** Drops the tasks that were to stop and have. */
    method Cleanup() returns (dirty: bool)
      requires Valid()
      modifies this`tasks
      ensures Valid() && TaskValues() == Unfinished(old(TaskValues())) && NodeValues() == old(NodeValues())
      ensures tasks.Values <= old(tasks.Values) && (dirty <==> TaskValues() != old(TaskValues()))
    {
      hide Finished, Unfinished;
      ghost var before, first := TaskValues(), tasks;
      dirty := false;
      KeysMatch();
      var keys := tasks.Keys;
      while keys != {}
        invariant keys <= tasks.Keys <= first.Keys && forall k :: k in tasks ==> tasks[k] == first[k]
        invariant forall k :: k in before ==> (k in tasks <==> k in keys || !Finished(before[k]))
        invariant (!dirty ==> tasks == first) && (dirty ==> tasks.Keys != first.Keys)
      {
        var k :| k in keys;
        keys := keys - {k};
        if StoppedTask(tasks[k]) {
          tasks := tasks - {k};
          dirty := true;
        }
      }
      KeysMatch();
      UnfinishedLeft(before, TaskValues());
    }

    /**
     One tick, reported as dirty exactly when a node got worse, a task was placed or a task was dropped:
     exactly when it changes a task, or does more to a node than let it recover.
     */
    method Tick(now: int) returns (dirty: bool, ghost order: seq<string>, ghost picks: seq<string>)
      requires Valid()
      modifies this`tasks, nodes.Values, tasks.Values
      ensures Valid() && Ticked(old(NodeValues()), old(TaskValues()), order, picks, NodeValues(), TaskValues(), now)
      ensures dirty <==> WorthSaving(old(NodeValues()), old(TaskValues()), order, picks, now)
      ensures dirty <==> Changes(old(NodeValues()), old(TaskValues()), NodeValues(), TaskValues())
    {
      hide NodeValues, TaskValues, Round, NodesAfter, TasksAfter, CheckedNodes, RescuedTasks, Unfinished, Healthy,
        Demoted, Changes;
      ghost var nodesBefore, before := NodeValues(), TaskValues();
      KeysMatch();
      var checked, activeNodeCount := CheckHealth(now);
      ghost var nodesThen, tasksThen := NodeValues(), TaskValues();
      KeysMatch();
      var scheduled := false;
      if activeNodeCount > 0 {
        scheduled, order, picks := Schedule(now);
      } else {
        order, picks := NobodyHealthy(nodesThen, tasksThen, now);
      }
      RoundLengths(nodesThen, tasksThen, order, picks);
      var cleaned := Cleanup();
      dirty := checked || scheduled || cleaned;
      KeysMatch();
      SavedExactly(nodesBefore, before, order, picks, NodeValues(), TaskValues(), now);
    }
  }

  lemma PickAllowed(nodes: Nodes, pick: string)
    requires pick != "" ==> Best(nodes, pick) && Score(nodes[pick]) > 0
    requires pick == "" ==> Exhausted(nodes)
    ensures MayPick(nodes, pick)
  {
    hide Best, Score, Exhausted;
  }

  lemma NoPicksOk(nodes: Nodes)
    ensures PicksOk(nodes, [])
  {}

  lemma PicksGrow(nodes: Nodes, picks: seq<string>, pick: string)
    requires PicksOk(nodes, picks) && MayPick(NodesAfter(nodes, picks), pick)
    ensures PicksOk(nodes, picks + [pick])
  {
    hide MayPick, NodesAfter;
    var more := picks + [pick];
    forall i | 0 <= i < |more| ensures MayPick(NodesAfter(nodes, more[..i]), more[i]) {
      if i < |picks| { assert more[..i] == picks[..i]; } else { assert more[..i] == picks; }
    }
  }

  /** With no healthy node there is no round, and every offer would have come to nothing. */
  lemma NobodyHealthy(nodes: Nodes, tasks: Tasks, now: int) returns (order: seq<string>, picks: seq<string>)
    requires forall id :: id in nodes ==> !Healthy(nodes, id)
    ensures Round(nodes, tasks, order, picks) && NodesAfter(nodes, picks) == nodes
    ensures TasksAfter(tasks, order, picks, now) == tasks
    ensures forall i :: 0 <= i < |picks| ==> picks[i] == ""
  {
    hide Waiting;
    order := Listed(Waiting(tasks));
    picks := seq(|order|, i => "");
    forall i | 0 <= i <= |picks| ensures NodesAfter(nodes, picks[..i]) == nodes {
      NothingPicked(nodes, tasks, order[..i], picks[..i], now);
    }
    NothingPicked(nodes, tasks, order, picks, now);
    assert AllZero(nodes);
  }

  lemma {:induction false} Listed(keys: set<string>) returns (list: seq<string>)
    ensures Distinct(list) && forall k :: k in list <==> k in keys
    decreases keys
  {
    if keys == {} {
      list := [];
    } else {
      var k :| k in keys;
      var rest := Listed(keys - {k});
      list := [k] + rest;
    }
  }
}
