/** The round-based DAG scheduler (nvidia_smartroute/parkour/scheduler.py) and its agreement
    with the recursive evaluation of the graph. */
module Scheduling {
  import opened Wrappers
  import opened Ordering
  import opened Graphs
  import opened Planning
  import opened Evaluation
  import opened Gathering
  import opened Ledgers
  import opened Progress

  datatype RunError =
    | CallLimitBelowGraph
    | Unschedulable
    | CallLimitExceeded
    | WorkerLimit
    | TokenLimit
    | CostLimit

  datatype SchedulerResult = SchedulerResult(nodes: Ledger, totalCalls: nat, total: Usage, peakConcurrency: nat)

  ghost function OutcomeOf(job: Job, task: Task, results: map<Id, NodeResult>): Option<NodeResult>
    requires Known(task.dependencies, results)
  {
    NodeOutcome(job, task, ContextsFrom(task.dependencies, results, job.limits.maxContextChars))
  }

  ghost function Outcomes(job: Job, tasks: seq<Task>, results: map<Id, NodeResult>): (r: seq<Option<NodeResult>>)
    requires KnownAll(tasks, results)
    ensures |r| == |tasks| && forall i :: 0 <= i < |tasks| ==> r[i] == OutcomeOf(job, tasks[i], results)
  {
    seq(|tasks|, i requires 0 <= i < |tasks| => OutcomeOf(job, tasks[i], results))
  }

  ghost predicate Returns(job: Job, tasks: seq<Task>, results: map<Id, NodeResult>, batch: seq<NodeResult>)
    requires KnownAll(tasks, results)
  {
    && |batch| == |tasks|
    && forall i :: 0 <= i < |tasks| ==> OutcomeOf(job, tasks[i], results) == Some(batch[i])
  }

  ghost predicate SomeRaises(job: Job, tasks: seq<Task>, results: map<Id, NodeResult>)
    requires KnownAll(tasks, results)
  {
    exists i :: 0 <= i < |tasks| && OutcomeOf(job, tasks[i], results) == None
  }

  // Work left in a round: two steps for a coroutine that waits, one for one that runs.
  ghost function Left<T>(phases: seq<Phase<T>>): nat {
    if phases == [] then 0
    else
      Left(phases[..|phases| - 1])
      + match phases[|phases| - 1] case Waiting => 2 case Running => 1 case Returned(_) => 0
  }

  lemma {:induction false} LeftDecreases<T>(phases: seq<Phase<T>>, i: nat, p: Phase<T>)
    requires i < |phases|
    requires (phases[i].Waiting? && p.Running?) || (phases[i].Running? && p.Returned?)
    ensures Left(phases[i := p]) == Left(phases) - 1
  {
    var front := phases[..|phases| - 1];
    if i < |front| {
      LeftDecreases(front, i, p);
      assert phases[i := p][..|phases| - 1] == front[i := p];
    } else {
      assert phases[i := p][..|phases| - 1] == front;
    }
  }

  // ---- The steps of one round ----

  ghost predicate RoundInput(job: Job, ready: seq<Task>, ledger: Ledger) {
    && Consistent(ledger) && KnownAll(ready, ledger.byId)
    && NoDup(Ids(ready)) && Elems(Ids(ready)) !! ledger.byId.Keys
    && forall t :: t in ready ==> t.id in job.byId && job.byId[t.id] == t
  }

  // Midway through the ready tasks: the blocked ones so far are in the ledger.
  ghost predicate SkippedSoFar(job: Job, ready: seq<Task>, i: nat, ledger0: Ledger, ledger: Ledger)
    requires i <= |ready|
  {
    && Consistent(ledger)
    && ledger.entries == ledger0.entries + SkippedNodes(Among(ready[..i], BlockedIds(job, ledger0.byId)))
  }

  lemma {:induction false} SkippedIds(ready: seq<Task>, i: nat, ids: set<Id>)
    requires NoDup(Ids(ready)) && i < |ready|
    ensures ready[i].id in Elems(Ids(ready)) && ready[i].id !in Elems(NodeIds(SkippedNodes(Among(ready[..i], ids))))
  {
    NextIsNew(Ids(ready), i);
    hide NoDup;
    assert Ids(ready)[i] == ready[i].id && Ids(ready)[i] in Elems(Ids(ready));
    var skipped := Among(ready[..i], ids);
    AmongMembers(ready[..i], ids);
    forall j | 0 <= j < |skipped| ensures NodeIds(SkippedNodes(skipped))[j] != ready[i].id {
      assert skipped[j] in skipped;
      var k :| 0 <= k < i && ready[..i][k] == skipped[j];
      assert Ids(ready)[..i][k] == skipped[j].id;
    }
  }

  lemma {:induction false} StillFresh(job: Job, ready: seq<Task>, i: nat, ledger0: Ledger, ledger: Ledger)
    requires RoundInput(job, ready, ledger0) && i < |ready| && SkippedSoFar(job, ready, i, ledger0, ledger)
    ensures ready[i].id !in ledger.byId
  {
    hide Consistent, NoDup, BlockedIds, SkippedNodes, NodeIds, Among, KnownAll;
    ExtendedKeys(ledger0, ledger, SkippedNodes(Among(ready[..i], BlockedIds(job, ledger0.byId))));
    SkippedIds(ready, i, BlockedIds(job, ledger0.byId));
  }

  lemma SameBlocked(job: Job, task: Task, results0: map<Id, NodeResult>, results: map<Id, NodeResult>)
    requires Known(task.dependencies, results0) && task.id in job.byId && job.byId[task.id] == task
    requires forall n :: n in results0 ==> n in results && results[n] == results0[n]
    ensures IsBlocked(job, task, results) <==> task.id in BlockedIds(job, results0)
    ensures OutcomeOf(job, task, results) == OutcomeOf(job, task, results0)
  {
    NodeValueAgrees(job, task, results0, results);
    ContextsAgree(task.dependencies, results0, results, job.limits.maxContextChars);
  }

  lemma {:induction false} SkipOne(job: Job, ready: seq<Task>, i: nat, ledger0: Ledger, ledger: Ledger)
    requires RoundInput(job, ready, ledger0) && i < |ready| && SkippedSoFar(job, ready, i, ledger0, ledger)
    ensures IsBlocked(job, ready[i], ledger.byId) <==> ready[i].id in BlockedIds(job, ledger0.byId)
    ensures IsBlocked(job, ready[i], ledger.byId) ==>
      SkippedSoFar(job, ready, i + 1, ledger0, Put(ledger, SkippedNode(ready[i].id)))
    ensures !IsBlocked(job, ready[i], ledger.byId) ==> SkippedSoFar(job, ready, i + 1, ledger0, ledger)
  {
    hide Consistent, NoDup, BlockedIds, IsBlocked, Among, KnownAll, SkippedNodes;
    StillFresh(job, ready, i, ledger0, ledger);
    ExtendedFacts(ledger0, ledger, SkippedNodes(Among(ready[..i], BlockedIds(job, ledger0.byId))));
    InputKnown(job, ready, ledger0, i);
    SameBlocked(job, ready[i], ledger0.byId, ledger.byId);
    AmongNext(ready, i, BlockedIds(job, ledger0.byId));
    PutConsistent(ledger, SkippedNode(ready[i].id));
    SkippedAppend(Among(ready[..i], BlockedIds(job, ledger0.byId)), ready[i]);
  }

  lemma SkippedAppend(tasks: seq<Task>, t: Task)
    ensures SkippedNodes(tasks + [t]) == SkippedNodes(tasks) + [SkippedNode(t.id)]
  {
  }

  lemma SkipNone(job: Job, ready: seq<Task>, ledger: Ledger)
    requires Consistent(ledger)
    ensures SkippedSoFar(job, ready, 0, ledger, ledger)
    ensures Elems(Ids([])) == {} && ready[..0] == [] && ready[..|ready|] == ready
  {
  }

  // Blocked tasks are recorded as skipped on the spot; the others are returned to be run.
  method SkipBlocked(job: Job, ready: seq<Task>, ledger0: Ledger, pending0: seq<Task>,
                     ghost tasks: seq<Task>, ghost open: set<Id>)
    returns (ledger: Ledger, runnable: seq<Task>, pending: seq<Task>)
    requires RoundInput(job, ready, ledger0) && pending0 == Among(tasks, open)
    ensures Consistent(ledger)
    ensures ledger.entries == ledger0.entries + SkippedNodes(Among(ready, BlockedIds(job, ledger0.byId)))
    ensures runnable == Among(ready, FreeIds(job, ledger0.byId))
    ensures pending == Among(tasks, open - Elems(Ids(Among(ready, BlockedIds(job, ledger0.byId)))))
  {
    hide RoundInput, SkippedSoFar, Consistent, BlockedIds, IsBlocked, Pop, Elems;
    ledger, runnable, pending := ledger0, [], pending0;
    ghost var removed: set<Id>, left := {}, open;
    InputConsistent(job, ready, ledger0);
    SkipNone(job, ready, ledger0);
    for i := 0 to |ready|
      invariant SkippedSoFar(job, ready, i, ledger0, ledger)
      invariant runnable == Among(ready[..i], FreeIds(job, ledger0.byId))
      invariant removed == Elems(Ids(Among(ready[..i], BlockedIds(job, ledger0.byId))))
      invariant left == open - removed && pending == Among(tasks, left)
    {
      var task := ready[i];
      SkipOne(job, ready, i, ledger0, ledger);
      AmongNext(ready, i, FreeIds(job, ledger0.byId));
      AmongNext(ready, i, BlockedIds(job, ledger0.byId));
      InputKnown(job, ready, ledger0, i);
      if IsBlocked(job, task, ledger.byId) {
        ledger := Put(ledger, SkippedNode(task.id));
        PopAmong(tasks, left, task.id);
        pending := Pop(pending, task.id);
        IdsAppend(Among(ready[..i], BlockedIds(job, ledger0.byId)), task);
        removed, left := removed + {task.id}, left - {task.id};
      } else {
        assert Among(ready[..i + 1], BlockedIds(job, ledger0.byId)) == Among(ready[..i], BlockedIds(job, ledger0.byId));
        runnable := runnable + [task];
      }
    }
    SkippedAll(job, ready, ledger0, ledger);
  }

  lemma InputConsistent(job: Job, ready: seq<Task>, ledger: Ledger)
    requires RoundInput(job, ready, ledger)
    ensures Consistent(ledger)
  {
  }

  lemma {:induction false} InputKnown(job: Job, ready: seq<Task>, ledger: Ledger, i: nat)
    requires RoundInput(job, ready, ledger) && i < |ready|
    ensures ready[i].id in job.byId && job.byId[ready[i].id] == ready[i] && Known(ready[i].dependencies, ledger.byId)
  {
    hide Consistent, NoDup;
    assert ready[i] in ready;
  }

  lemma SkippedAll(job: Job, ready: seq<Task>, ledger0: Ledger, ledger: Ledger)
    requires SkippedSoFar(job, ready, |ready|, ledger0, ledger)
    ensures Consistent(ledger)
    ensures ledger.entries == ledger0.entries + SkippedNodes(Among(ready, BlockedIds(job, ledger0.byId)))
  {
    assert ready[..|ready|] == ready;
  }

  lemma IdsAppend(tasks: seq<Task>, t: Task)
    ensures Ids(tasks + [t]) == Ids(tasks) + [t.id] && Elems(Ids(tasks + [t])) == Elems(Ids(tasks)) + {t.id}
  {
    assert Ids(tasks + [t]) == Ids(tasks) + [t.id];
    ElemsAppend(Ids(tasks), t.id);
  }

  lemma {:induction false} NodeIdsNext(batch: seq<NodeResult>, i: nat)
    requires NoDup(NodeIds(batch)) && i < |batch|
    ensures batch[i].nodeId in Elems(NodeIds(batch)) && batch[i].nodeId !in Elems(NodeIds(batch[..i]))
    ensures Elems(NodeIds(batch[..i + 1])) == Elems(NodeIds(batch[..i])) + {batch[i].nodeId}
  {
    NextIsNew(NodeIds(batch), i);
    hide NoDup;
    assert NodeIds(batch)[i] == batch[i].nodeId && NodeIds(batch)[i] in Elems(NodeIds(batch));
    assert NodeIds(batch)[..i] == NodeIds(batch[..i]) && NodeIds(batch)[..i + 1] == NodeIds(batch[..i + 1]);
  }

  lemma {:induction false} RecordFresh(batch: seq<NodeResult>, i: nat, ledger0: Ledger, ledger: Ledger)
    requires Consistent(ledger0) && NoDup(NodeIds(batch)) && Elems(NodeIds(batch)) !! ledger0.byId.Keys
    requires i < |batch| && Consistent(ledger) && ledger.entries == ledger0.entries + batch[..i]
    ensures batch[i].nodeId !in ledger.byId
  {
    hide Consistent, NoDup, NodeIds, Elems;
    ExtendedKeys(ledger0, ledger, batch[..i]);
    NodeIdsNext(batch, i);
  }

  lemma {:induction false} RecordNext(batch: seq<NodeResult>, i: nat, ledger0: Ledger, ledger: Ledger)
    requires Consistent(ledger0) && NoDup(NodeIds(batch)) && Elems(NodeIds(batch)) !! ledger0.byId.Keys
    requires i < |batch| && Consistent(ledger) && ledger.entries == ledger0.entries + batch[..i]
    ensures Consistent(Put(ledger, batch[i])) && Put(ledger, batch[i]).entries == ledger0.entries + batch[..i + 1]
    ensures Elems(NodeIds(batch[..i + 1])) == Elems(NodeIds(batch[..i])) + {batch[i].nodeId}
  {
    hide Consistent, NoDup, NodeIds, Elems;
    RecordFresh(batch, i, ledger0, ledger);
    NodeIdsNext(batch, i);
    PutConsistent(ledger, batch[i]);
    TakeNext(ledger0.entries, batch, i);
  }

  lemma {:induction false} TakeNext<T>(before: seq<T>, s: seq<T>, i: nat)
    requires i < |s|
    ensures before + s[..i] + [s[i]] == before + s[..i + 1]
  {
  }

  method Record(batch: seq<NodeResult>, ledger0: Ledger, pending0: seq<Task>, usage0: Usage,
                ghost tasks: seq<Task>, ghost open: set<Id>)
    returns (ledger: Ledger, pending: seq<Task>, usage: Usage)
    requires Consistent(ledger0) && NoDup(NodeIds(batch)) && Elems(NodeIds(batch)) !! ledger0.byId.Keys
    requires pending0 == Among(tasks, open) && usage0 == Spend(ledger0.entries)
    requires forall i :: 0 <= i < |batch| ==> batch[i].status != Skipped
    ensures Consistent(ledger) && ledger.entries == ledger0.entries + batch
    ensures pending == Among(tasks, open - Elems(NodeIds(batch)))
    ensures usage == Spend(ledger.entries) && CountSkipped(ledger.entries) == CountSkipped(ledger0.entries)
  {
    hide Consistent, NoDup, Pop, Spend, CountSkipped, Elems;
    ledger, pending, usage := ledger0, pending0, usage0;
    ghost var removed: set<Id>, left := {}, open;
    NothingRecorded(batch);
    for i := 0 to |batch|
      invariant Consistent(ledger) && ledger.entries == ledger0.entries + batch[..i]
      invariant removed == Elems(NodeIds(batch[..i])) && left == open - removed && pending == Among(tasks, left)
      invariant usage == Spend(ledger.entries) && CountSkipped(ledger.entries) == CountSkipped(ledger0.entries)
    {
      var result := batch[i];
      RecordNext(batch, i, ledger0, ledger);
      AppendSpend(ledger.entries, result);
      ledger := Put(ledger, result);
      PopAmong(tasks, left, result.nodeId);
      pending := Pop(pending, result.nodeId);
      removed, left := removed + {result.nodeId}, left - {result.nodeId};
      usage := Usage(usage.tokens + result.tokens, usage.cost + result.cost);
    }
    assert batch[..|batch|] == batch;
  }

  lemma NothingRecorded(batch: seq<NodeResult>)
    ensures batch[..0] == [] && Elems(NodeIds([])) == {}
  {
  }

  // ---- A whole run ----

  ghost predicate PeakWithin(job: Job, peak: nat) {
    peak <= job.limits.maxConcurrency && (peak > 0 ==> exists k: nat :: peak <= |Layer(GraphOfJob(job), k)|)
  }

  ghost predicate RunReport(job: Job, plan: Plan, res: SchedulerResult, rounds: nat) {
    && Completes(job, plan.tasks, res.nodes, res.totalCalls, rounds)
    && res.total == Spend(res.nodes.entries)
    && PeakWithin(job, res.peakConcurrency) && (res.peakConcurrency > 0 <==> res.totalCalls > 0)
  }

  // What each exception says about the plan, the worker or the limits.
  ghost predicate Excused(job: Job, plan: Plan, e: RunError) {
    match e
    case CallLimitBelowGraph => |plan.tasks| > job.limits.maxCalls
    case Unschedulable => !Acyclic(GraphOfJob(job))
    case CallLimitExceeded => |plan.tasks| > job.limits.maxCalls
    case WorkerLimit => exists k: nat :: Clear(job, k) && LevelAborts(job, k)
    case TokenLimit => exists k: nat :: Clear(job, k) && OverTokens(job, k)
    case CostLimit => exists k: nat :: Clear(job, k) && OverCost(job, k)
  }

  // Level k + 1 has run and its tokens are over the limit; the cost is looked at after the tokens.
  ghost predicate OverTokens(job: Job, k: nat) {
    Layer(GraphOfJob(job), k) != {} && !LevelAborts(job, k) && !TokensHold(job, k + 1)
  }

  ghost predicate OverCost(job: Job, k: nat) {
    Layer(GraphOfJob(job), k) != {} && !LevelAborts(job, k) && TokensHold(job, k + 1) && !CostHolds(job, k + 1)
  }

  ghost function OpenIds(job: Job, r: nat): set<Id> {
    job.byId.Keys - Done(GraphOfJob(job), r)
  }

  lemma PlanFacts(plan: Plan, job: Job)
    requires WellFormed(plan) && job.byId == TaskMap(plan.tasks)
    ensures Lists(job, plan.tasks) && Closed(GraphOfJob(job)) && GraphOfJob(job) == GraphOf(plan)
  {
    hide NoDup, TaskMap;
    GraphIsClosed(plan);
    TaskMapEntries(plan.tasks);
    forall t | t in plan.tasks ensures t.id in job.byId && job.byId[t.id] == t {
      var i :| 0 <= i < |plan.tasks| && plan.tasks[i] == t;
      TaskMapLookup(plan.tasks, i);
    }
  }

  lemma FreshStart(job: Job)
    ensures PeakWithin(job, 0) && Spend([]) == Usage(0, 0.0) && BudgetThrough(job, 0)
  {
  }

  lemma {:induction false} RoundBegins(job: Job, plan: Plan, pending: seq<Task>, l: Ledger, calls: nat, r: nat)
    requires Lists(job, plan.tasks) && Closed(GraphOfJob(job)) && pending != []
    requires AfterRounds(job, plan.tasks, pending, l, calls, r)
    ensures pending == Among(plan.tasks, OpenIds(job, r))
    ensures var ready := ReadyTasks(pending, l.byId);
            && ready == Among(plan.tasks, Layer(GraphOfJob(job), r)) && RoundInput(job, ready, l)
            && |ready| == |Layer(GraphOfJob(job), r)|
            && (ready == [] ==> Excused(job, plan, Unschedulable))
            && (ready != [] ==> Layer(GraphOfJob(job), r) != {})
            && (calls + |ready| > job.limits.maxCalls ==> Excused(job, plan, CallLimitExceeded))
  {
    hide Evaluated, Consistent, EntriesInOrder, Layer, Among, Lists, Closed, Acyclic, ReadyTasks, KnownAll;
    var ready := ReadyTasks(pending, l.byId);
    EvaluatedKeys(job, r, l.byId);
    ReadyIsLayer(job, plan.tasks, l.byId, r);
    LayerKnown(job, plan.tasks, r, l.byId);
    NonemptyRound(job, plan.tasks, r);
    PendingSplit(job, plan.tasks, r);
    LayerFresh(job, r);
    if ready == [] {
      StuckMeansCycle(job, plan.tasks, pending, r);
    }
  }

  lemma {:induction false} LayerFresh(job: Job, r: nat)
    ensures Layer(GraphOfJob(job), r) !! Done(GraphOfJob(job), r)
  {
  }

  // Skipping other nodes of the level changes nothing for the nodes that run.
  lemma FreeOutcome(job: Job, ready: seq<Task>, l0: Ledger, l: Ledger, rs: seq<NodeResult>, t: Task)
    requires RoundInput(job, ready, l0) && Consistent(l) && l.entries == l0.entries + rs
    requires t in Among(ready, FreeIds(job, l0.byId))
    ensures t in ready && Known(t.dependencies, l0.byId) && Known(t.dependencies, l.byId)
    ensures OutcomeOf(job, t, l.byId) == NodeValue(job, t, l0.byId)
  {
    hide Consistent, NoDup, Among, ContextsFrom, NodeOutcome;
    AmongMembers(ready, FreeIds(job, l0.byId));
    ExtendedFacts(l0, l, rs);
    hide Elems, NodeIds;
    assert Known(t.dependencies, l0.byId);
    SameBlocked(job, t, l0.byId, l.byId);
  }

  lemma RunnableKnown(job: Job, ready: seq<Task>, l0: Ledger, l: Ledger, rs: seq<NodeResult>)
    requires RoundInput(job, ready, l0) && Consistent(l) && l.entries == l0.entries + rs
    ensures KnownAll(Among(ready, FreeIds(job, l0.byId)), l.byId)
  {
    hide RoundInput, Consistent, Among, FreeIds;
    forall t | t in Among(ready, FreeIds(job, l0.byId)) ensures Known(t.dependencies, l.byId) {
      FreeOutcome(job, ready, l0, l, rs, t);
    }
  }

  lemma {:induction false} BatchAborts(job: Job, plan: Plan, l0: Ledger, l: Ledger, rs: seq<NodeResult>, r: nat)
    requires Lists(job, plan.tasks) && Evaluated(job, r, l0.byId)
    requires RoundInput(job, Among(plan.tasks, Layer(GraphOfJob(job), r)), l0)
    requires Consistent(l) && l.entries == l0.entries + rs
    requires var free := Among(Among(plan.tasks, Layer(GraphOfJob(job), r)), FreeIds(job, l0.byId));
             KnownAll(free, l.byId) && SomeRaises(job, free, l.byId)
    ensures LevelAborts(job, r)
  {
    hide Consistent, Evaluated, Among, FreeIds, OutcomeOf, NodeValue, Eval, RoundInput, Done;
    var ready := Among(plan.tasks, Layer(GraphOfJob(job), r));
    var free := Among(ready, FreeIds(job, l0.byId));
    var i :| 0 <= i < |free| && OutcomeOf(job, free[i], l.byId) == None;
    var t := free[i];
    FreeOutcome(job, ready, l0, l, rs, t);
    AmongMembers(plan.tasks, Layer(GraphOfJob(job), r));
    EvalStep(job, r, t.id, l0.byId);
    assert t.id in Done(GraphOfJob(job), r + 1) && Eval(job, r + 1, t.id) == None;
  }

  lemma {:induction false} StoppedAt(job: Job, plan: Plan, r: nat, l: Ledger)
    requires Evaluated(job, r, l.byId) && BudgetThrough(job, r) && LevelAborts(job, r)
    ensures Excused(job, plan, WorkerLimit)
  {
    hide Evaluated, LevelAborts, BudgetThrough;
    EvaluatedIsClear(job, r, l.byId);
    assert Clear(job, r);
  }

  lemma {:induction false} PeakKept(job: Job, r: nat, ready: seq<Task>, runnable: seq<Task>, ids: set<Id>, peak0: nat,
                                    peak: nat)
    requires PeakWithin(job, peak0) && |ready| == |Layer(GraphOfJob(job), r)| && runnable == Among(ready, ids)
    requires peak == peak0 || (peak <= job.limits.maxConcurrency && peak <= |runnable|)
    ensures PeakWithin(job, peak)
  {
    hide Among, Layer;
    AmongMembers(ready, ids);
  }

  lemma {:induction false} BatchOutput(job: Job, plan: Plan, r: nat, l0: Ledger, l1: Ledger, batch: seq<NodeResult>)
    requires Lists(job, plan.tasks) && Evaluated(job, r, l0.byId)
    requires RoundInput(job, Among(plan.tasks, Layer(GraphOfJob(job), r)), l0) && Consistent(l1)
    requires var ready := Among(plan.tasks, Layer(GraphOfJob(job), r));
             && l1.entries == l0.entries + SkippedNodes(Among(ready, BlockedIds(job, l0.byId)))
             && KnownAll(Among(ready, FreeIds(job, l0.byId)), l1.byId)
             && Returns(job, Among(ready, FreeIds(job, l0.byId)), l1.byId, batch)
    ensures KnownAll(Among(plan.tasks, Layer(GraphOfJob(job), r)), l0.byId)
    ensures var ready := Among(plan.tasks, Layer(GraphOfJob(job), r));
            var free := Among(ready, FreeIds(job, l0.byId));
            && |batch| == |free|
            && forall i :: 0 <= i < |free| ==> free[i] in ready && NodeValue(job, free[i], l0.byId) == Some(batch[i])
  {
    hide Consistent, Evaluated, Among, FreeIds, BlockedIds, OutcomeOf, NodeValue, Layer, Lists;
    var ready := Among(plan.tasks, Layer(GraphOfJob(job), r));
    var free := Among(ready, FreeIds(job, l0.byId));
    InputKnownAll(job, ready, l0);
    forall i | 0 <= i < |free| ensures free[i] in ready && NodeValue(job, free[i], l0.byId) == Some(batch[i]) {
      assert free[i] in free;
      FreeOutcome(job, ready, l0, l1, SkippedNodes(Among(ready, BlockedIds(job, l0.byId))), free[i]);
    }
  }

  lemma InputKnownAll(job: Job, ready: seq<Task>, l: Ledger)
    requires RoundInput(job, ready, l)
    ensures KnownAll(ready, l.byId)
  {
  }

  // The batch can be recorded after the skipped nodes of its level: all its ids are new.
  lemma BatchRecordable(job: Job, ready: seq<Task>, l0: Ledger, l1: Ledger, batch: seq<NodeResult>)
    requires RoundInput(job, ready, l0) && Consistent(l1)
    requires l1.entries == l0.entries + SkippedNodes(Among(ready, BlockedIds(job, l0.byId)))
    requires KnownAll(Among(ready, FreeIds(job, l0.byId)), l1.byId)
    requires Returns(job, Among(ready, FreeIds(job, l0.byId)), l1.byId, batch)
    ensures NodeIds(batch) == Ids(Among(ready, FreeIds(job, l0.byId))) && NoDup(NodeIds(batch))
    ensures Elems(NodeIds(batch)) !! l1.byId.Keys
    ensures forall i :: 0 <= i < |batch| ==> batch[i].status != Skipped
  {
    hide Consistent, NoDup, Among, BlockedIds, NodeOutcome, Elems, KnownAll;
    var blocked, free := Among(ready, BlockedIds(job, l0.byId)), Among(ready, FreeIds(job, l0.byId));
    BatchIds(job, free, l1.byId, batch);
    AmongIds(ready, FreeIds(job, l0.byId));
    AmongIds(ready, BlockedIds(job, l0.byId));
    ExtendedKeys(l0, l1, SkippedNodes(blocked));
    assert NodeIds(SkippedNodes(blocked)) == Ids(blocked);
  }

  lemma BatchIds(job: Job, free: seq<Task>, results: map<Id, NodeResult>, batch: seq<NodeResult>)
    requires KnownAll(free, results) && Returns(job, free, results, batch)
    ensures NodeIds(batch) == Ids(free)
    ensures forall i :: 0 <= i < |batch| ==> batch[i].status != Skipped
  {
    hide ContextsFrom;
    forall i | 0 <= i < |batch| ensures batch[i].nodeId == free[i].id && batch[i].status != Skipped {
      assert free[i] in free;
    }
  }

  // The blocked nodes of the level are recorded and the batch of the others has returned.
  ghost predicate MidRound(job: Job, plan: Plan, l0: Ledger, l1: Ledger, batch: seq<NodeResult>, r: nat) {
    var ready := Among(plan.tasks, Layer(GraphOfJob(job), r));
    && RoundInput(job, ready, l0) && Consistent(l1)
    && l1.entries == l0.entries + SkippedNodes(Among(ready, BlockedIds(job, l0.byId)))
    && KnownAll(Among(ready, FreeIds(job, l0.byId)), l1.byId)
    && Returns(job, Among(ready, FreeIds(job, l0.byId)), l1.byId, batch)
  }

  lemma {:induction false} MidPending(job: Job, plan: Plan, l0: Ledger, l1: Ledger, batch: seq<NodeResult>, r: nat)
    requires Lists(job, plan.tasks) && Evaluated(job, r, l0.byId) && MidRound(job, plan, l0, l1, batch, r)
    ensures var ready := Among(plan.tasks, Layer(GraphOfJob(job), r));
            OpenIds(job, r) - Elems(Ids(Among(ready, BlockedIds(job, l0.byId)))) - Elems(NodeIds(batch))
              == OpenIds(job, r + 1)
  {
    hide Evaluated, Among, NoDup, Layer, Lists, BlockedIds, FreeIds, RoundInput, Returns, KnownAll, Consistent;
    EvaluatedKeys(job, r, l0.byId);
    BatchRecordable(job, Among(plan.tasks, Layer(GraphOfJob(job), r)), l0, l1, batch);
    StillPending(job, plan.tasks, r, l0.byId);
  }

  lemma {:induction false} MidOutput(job: Job, plan: Plan, l0: Ledger, l1: Ledger, l: Ledger, batch: seq<NodeResult>,
                                     r: nat)
    requires Lists(job, plan.tasks) && Evaluated(job, r, l0.byId) && MidRound(job, plan, l0, l1, batch, r)
    requires Consistent(l) && l.entries == l1.entries + batch
    ensures KnownAll(Among(plan.tasks, Layer(GraphOfJob(job), r)), l0.byId)
    ensures RoundOutput(job, plan.tasks, r, l0, l, batch)
  {
    hide Evaluated, Among, Layer, Lists, NodeValue, BlockedIds, FreeIds, RoundInput, Returns, KnownAll, Consistent;
    BatchOutput(job, plan, r, l0, l1, batch);
  }

  lemma {:induction false} MidEntries(job: Job, plan: Plan, l0: Ledger, l1: Ledger, batch: seq<NodeResult>, r: nat)
    requires MidRound(job, plan, l0, l1, batch, r)
    ensures l1.entries == l0.entries
      + SkippedNodes(Among(Among(plan.tasks, Layer(GraphOfJob(job), r)), BlockedIds(job, l0.byId)))
  {
  }

  lemma {:induction false} FewerPending(job: Job, tasks: seq<Task>, r: nat)
    requires Lists(job, tasks) && Layer(GraphOfJob(job), r) != {}
    ensures |Among(tasks, OpenIds(job, r + 1))| < |Among(tasks, OpenIds(job, r))|
  {
    hide Among, Done, Layer, Lists;
    PendingSplit(job, tasks, r);
    NonemptyRound(job, tasks, r);
  }

  lemma {:induction false} RoundEnds(job: Job, plan: Plan, pending0: seq<Task>, l0: Ledger, l1: Ledger, l: Ledger,
                                     batch: seq<NodeResult>, calls: nat, r: nat)
    requires Lists(job, plan.tasks) && AfterRounds(job, plan.tasks, pending0, l0, calls, r)
    requires MidRound(job, plan, l0, l1, batch, r) && Layer(GraphOfJob(job), r) != {}
    requires Consistent(l) && l.entries == l1.entries + batch && CountSkipped(l.entries) == CountSkipped(l1.entries)
    ensures AfterRounds(job, plan.tasks, Among(plan.tasks, OpenIds(job, r + 1)), l, calls + |batch|, r + 1)
  {
    hide *;
    LedgerFacts(job, plan.tasks, pending0, l0, calls, r);
    MidOutput(job, plan, l0, l1, l, batch, r);
    MidEntries(job, plan, l0, l1, batch, r);
    OpenAre(job, r + 1);
    RoundAdvances(job, plan.tasks, pending0, Among(plan.tasks, OpenIds(job, r + 1)), l0, l, batch, calls, r);
  }

  lemma {:induction false} OpenAre(job: Job, r: nat)
    ensures OpenIds(job, r) == job.byId.Keys - Done(GraphOfJob(job), r)
  {
  }

  lemma {:induction false} StillPending(job: Job, tasks: seq<Task>, r: nat, results: map<Id, NodeResult>)
    requires Lists(job, tasks) && results.Keys == Done(GraphOfJob(job), r)
    ensures var ready := Among(tasks, Layer(GraphOfJob(job), r));
            OpenIds(job, r) - Elems(Ids(Among(ready, BlockedIds(job, results))))
              - Elems(Ids(Among(ready, FreeIds(job, results))))
              == OpenIds(job, r + 1)
  {
    hide Done, Among, NoDup, Ids, BlockedIds, Layer;
    var ready := Among(tasks, Layer(GraphOfJob(job), r));
    LayerKnown(job, tasks, r, results);
    AmongIds(ready, FreeIds(job, results));
    AmongIds(ready, BlockedIds(job, results));
    PendingSplit(job, tasks, r);
    LayerInJob(job, r);
    assert Elems(Ids(ready)) * BlockedIds(job, results) + Elems(Ids(ready)) * FreeIds(job, results)
        == Layer(GraphOfJob(job), r);
  }

  lemma {:induction false} LayerInJob(job: Job, r: nat)
    ensures Layer(GraphOfJob(job), r) <= job.byId.Keys
  {
    DoneGrows(GraphOfJob(job), r, r + 1);
  }

  lemma {:induction false} BudgetStep(job: Job, r: nat, l: Ledger)
    requires BudgetThrough(job, r) && Consistent(l) && Evaluated(job, r + 1, l.byId)
    requires Spend(l.entries).tokens <= job.limits.maxTokens && Spend(l.entries).cost <= job.limits.maxCost
    ensures BudgetThrough(job, r + 1)
  {
    hide Consistent, Evaluated, Spend;
    BudgetAt(job, r + 1, l);
    hide TokensHold, CostHolds;
  }

  lemma {:induction false} OverBudget(job: Job, plan: Plan, r: nat, l: Ledger)
    requires BudgetThrough(job, r)
    requires Consistent(l) && Evaluated(job, r + 1, l.byId) && Layer(GraphOfJob(job), r) != {}
    ensures Spend(l.entries).tokens > job.limits.maxTokens ==> Excused(job, plan, TokenLimit)
    ensures Spend(l.entries).tokens <= job.limits.maxTokens && Spend(l.entries).cost > job.limits.maxCost ==>
      Excused(job, plan, CostLimit)
  {
    hide Consistent, Evaluated, Spend, TokensHold, CostHolds, LevelAborts, BudgetThrough, Layer;
    BudgetAt(job, r + 1, l);
    EvaluatedIsClear(job, r + 1, l.byId);
    assert Clear(job, r) && !LevelAborts(job, r);
  }

  // The exception of a run is determined by its job: what stops it first, and only that.
  lemma ErrorUnique(job: Job, plan: Plan, d: RunError, e: RunError)
    requires job.byId == TaskMap(plan.tasks) && Acyclic(GraphOf(plan)) && |plan.tasks| <= job.limits.maxCalls
    requires Excused(job, plan, d) && Excused(job, plan, e)
    ensures d == e
  {
    hide TokensHold, CostHolds, LevelAborts, Acyclic, TaskMap, Layer;
    forall j: nat, k: nat | j < k && Clear(job, k) ensures !LevelAborts(job, j) && TokensHold(job, j + 1) &&
      CostHolds(job, j + 1) {}
  }

  lemma {:induction false} LedgerFacts(job: Job, tasks: seq<Task>, pending: seq<Task>, l: Ledger, calls: nat, r: nat)
    requires AfterRounds(job, tasks, pending, l, calls, r)
    ensures Consistent(l) && Evaluated(job, r, l.byId)
  {
  }

  lemma {:induction false} MidRoundIs(job: Job, plan: Plan, l0: Ledger, l1: Ledger, batch: seq<NodeResult>, r: nat)
    requires var ready := Among(plan.tasks, Layer(GraphOfJob(job), r));
      && RoundInput(job, ready, l0) && Consistent(l1)
      && l1.entries == l0.entries + SkippedNodes(Among(ready, BlockedIds(job, l0.byId)))
      && KnownAll(Among(ready, FreeIds(job, l0.byId)), l1.byId)
      && Returns(job, Among(ready, FreeIds(job, l0.byId)), l1.byId, batch)
    ensures MidRound(job, plan, l0, l1, batch, r)
    ensures |batch| == |Among(Among(plan.tasks, Layer(GraphOfJob(job), r)), FreeIds(job, l0.byId))|
  {
  }

  lemma {:induction false} Reported(job: Job, plan: Plan, res: SchedulerResult, rounds: nat)
    requires Completes(job, plan.tasks, res.nodes, res.totalCalls, rounds)
    requires res.total == Spend(res.nodes.entries) && PeakWithin(job, res.peakConcurrency)
    requires res.peakConcurrency > 0 <==> res.totalCalls > 0
    ensures RunReport(job, plan, res, rounds)
  {
  }

  lemma {:induction false} ReportMeans(job: Job, plan: Plan, res: SchedulerResult, rounds: nat)
    requires RunReport(job, plan, res, rounds)
    ensures Permitted(job)
  {
    CompleteIsPermitted(job, plan.tasks, res.nodes, res.totalCalls, rounds);
  }

  lemma ExcuseMeans(job: Job, plan: Plan)
    requires job.byId == TaskMap(plan.tasks) && Acyclic(GraphOf(plan))
    ensures |plan.tasks| > job.limits.maxCalls ==> Excused(job, plan, CallLimitBelowGraph)
    ensures !Excused(job, plan, Unschedulable)
    ensures forall e :: Excused(job, plan, e) ==> |plan.tasks| > job.limits.maxCalls || !Permitted(job)
    ensures Excused(job, plan, CallLimitExceeded) || Excused(job, plan, CallLimitBelowGraph) ==>
      |plan.tasks| > job.limits.maxCalls
  {
    hide Acyclic, TokensHold, CostHolds, TaskMap, Eval;
  }

  class DagScheduler {
    const limits: SchedulerLimits
    var active: nat
    var peak: nat

    constructor (limits: SchedulerLimits)
      ensures this.limits == limits && active == 0 && peak == 0
    {
      this.limits := limits;
      active, peak := 0, 0;
    }

    method Contexts(task: Task, results: map<Id, NodeResult>) returns (contexts: seq<DependencyContext>)
      requires Known(task.dependencies, results)
      ensures contexts == ContextsFrom(task.dependencies, results, limits.maxContextChars)
    {
      var remaining: nat := limits.maxContextChars;
      contexts := [];
      for i := 0 to |task.dependencies|
        invariant contexts + ContextsFrom(task.dependencies[i..], results, remaining)
          == ContextsFrom(task.dependencies, results, limits.maxContextChars)
      {
        var dependency := task.dependencies[i];
        assert task.dependencies[i..][1..] == task.dependencies[i + 1..];
        if results[dependency].status == Succeeded {
          var output := results[dependency].output;
          var retained := Clip(output, remaining);
          contexts := contexts + [DependencyContext(dependency, retained, |retained| < |output|)];
          remaining := if remaining - |retained| > 0 then remaining - |retained| else 0;
        }
      }
    }

    // `_run_node` between acquiring and releasing the semaphore; None when the limit error escapes.
    method RunNode(job: Job, task: Task, results: map<Id, NodeResult>) returns (outcome: Option<NodeResult>)
      requires job.limits == limits && Known(task.dependencies, results)
      ensures outcome == OutcomeOf(job, task, results)
    {
      var contexts := Contexts(task, results);
      outcome := NodeOutcome(job, task, contexts);
    }

    // The round's coroutines take turns in any order the semaphore allows.
    // `schedule` is the interleaving of the workers.
    method Gather(job: Job, runnable: seq<Task>, results: map<Id, NodeResult>)
      returns (batch: Option<seq<NodeResult>>, ghost schedule: seq<Event>)
      requires job.limits == limits && limits.maxConcurrency >= 1 && active == 0
      requires KnownAll(runnable, results)
      modifies this
      ensures batch.Some? ==> active == 0 && Returns(job, runnable, results, batch.value)
      ensures batch == None ==> SomeRaises(job, runnable, results)
      ensures peak == old(peak) || (peak <= limits.maxConcurrency && peak <= |runnable|)
      ensures batch.Some? && runnable != [] ==> peak >= 1
      ensures var s := After(|runnable|, schedule, limits.maxConcurrency, Outcomes(job, runnable, results));
              && s.Some? && (batch.Some? ==> Finished(s.value))
              && peak == if s.value.peak > old(peak) then s.value.peak else old(peak)
    {
      hide *;
      var n := |runnable|;
      ghost var outcomes := Outcomes(job, runnable, results);
      var phases: seq<Phase<NodeResult>> := seq(n, i => Waiting);
      ghost var s := Round(phases, 0, 0);
      schedule := [];
      StartSound(n, phases, limits.maxConcurrency, outcomes);
      while exists i :: 0 <= i < n && !phases[i].Returned?
        invariant s.phases == phases && s.active == active && |phases| == n
        invariant peak == if s.peak > old(peak) then s.peak else old(peak)
        invariant Sound(n, s, limits.maxConcurrency, outcomes)
        invariant After(n, schedule, limits.maxConcurrency, outcomes) == Some(s)
        decreases Left(phases)
      {
        Unfinished(n, s);
        NeverStuck(n, s, limits.maxConcurrency, outcomes);
        PeakBound(n, s, limits.maxConcurrency, outcomes);
        var i: nat :| CanStep(phases, active, limits.maxConcurrency, i);
        StepMeans(phases, active, limits.maxConcurrency, i);
        if phases[i].Waiting? {
          StartKeeps(n, s, i, limits.maxConcurrency, outcomes, schedule);
          schedule := schedule + [Start(i)];
          s := Round(phases[i := Running], active + 1, if active + 1 > s.peak then active + 1 else s.peak);
          LeftDecreases(phases, i, Running);
          active := active + 1;
          peak := if active > peak then active else peak;
          phases := phases[i := Running];
        } else {
          KnownAt(job, runnable, results, i);
          var outcome := RunNode(job, runnable[i], results);
          active := active - 1;
          if outcome == None {
            return None, schedule;
          }
          FinishKeeps(n, s, i, limits.maxConcurrency, outcomes, schedule);
          schedule := schedule + [Finish(i)];
          s := Round(phases[i := Returned(outcome.value)], active, s.peak);
          LeftDecreases(phases, i, Returned(outcome.value));
          phases := phases[i := Returned(outcome.value)];
        }
      }
      FinalPhases(n, s, limits.maxConcurrency, outcomes);
      batch := Some(seq(n, i requires 0 <= i < n && n == |phases| && phases[i].Returned? => phases[i].value));
      ReturnsAll(job, runnable, results, batch.value);
    }

    // One round: record the blocked, run the others, record their results.
    method RunRound(plan: Plan, job: Job, pending0: seq<Task>, ready: seq<Task>, ledger0: Ledger, calls0: nat,
                    usage0: Usage, ghost r: nat)
      returns (ledger: Ledger, pending: seq<Task>, calls: nat, usage: Usage, ok: bool)
      requires job.limits == limits && limits.maxConcurrency >= 1 && active == 0 && BudgetThrough(job, r)
      requires PeakWithin(job, peak) && (peak > 0 <==> calls0 > 0)
      requires Lists(job, plan.tasks) && AfterRounds(job, plan.tasks, pending0, ledger0, calls0, r)
      requires pending0 == Among(plan.tasks, OpenIds(job, r)) && usage0 == Spend(ledger0.entries)
      requires ready == Among(plan.tasks, Layer(GraphOfJob(job), r)) && RoundInput(job, ready, ledger0)
      requires Layer(GraphOfJob(job), r) != {} && |ready| == |Layer(GraphOfJob(job), r)|
      modifies this
      ensures !ok ==> Excused(job, plan, WorkerLimit)
      ensures ok ==> active == 0 && PeakWithin(job, peak) && (peak > 0 <==> calls > 0)
      ensures ok ==> AfterRounds(job, plan.tasks, pending, ledger, calls, r + 1) && usage == Spend(ledger.entries)
      ensures ok ==> |pending| < |pending0|
    {
      hide *;
      ghost var blocked := Among(ready, BlockedIds(job, ledger0.byId));
      LedgerFacts(job, plan.tasks, pending0, ledger0, calls0, r);
      var runnable;
      ledger, runnable, pending := SkipBlocked(job, ready, ledger0, pending0, plan.tasks, OpenIds(job, r));
      ghost var ledger1, peak0 := ledger, peak;
      RunnableKnown(job, ready, ledger0, ledger, SkippedNodes(blocked));
      var batch;
      ghost var schedule;
      batch, schedule := Gather(job, runnable, ledger.byId);
      calls, usage, ok := calls0, usage0, batch.Some?;
      if batch == None {
        BatchAborts(job, plan, ledger0, ledger, SkippedNodes(blocked), r);
        StoppedAt(job, plan, r, ledger0);
        return;
      }
      PeakKept(job, r, ready, runnable, FreeIds(job, ledger0.byId), peak0, peak);
      calls := calls + |runnable|;
      MidRoundIs(job, plan, ledger0, ledger1, batch.value, r);
      BatchRecordable(job, ready, ledger0, ledger1, batch.value);
      SkippedBooks(ledger0.entries, blocked);
      MidPending(job, plan, ledger0, ledger1, batch.value, r);
      ghost var open := OpenIds(job, r) - Elems(Ids(blocked));
      ledger, pending, usage := Record(batch.value, ledger, pending, usage, plan.tasks, open);
      RoundEnds(job, plan, pending0, ledger0, ledger1, ledger, batch.value, calls0, r);
      FewerPending(job, plan.tasks, r);
    }

    // `_execute`, without the wall-clock deadline; `rounds` counts the batches.
    method ExecuteRounds(plan: Plan, job: Job) returns (r: Result<SchedulerResult, RunError>, ghost rounds: nat)
      requires WellFormed(plan) && job.byId == TaskMap(plan.tasks) && job.limits == limits
      requires limits.maxConcurrency >= 1 && active == 0 && peak == 0
      modifies this
      ensures r.Ok? ==> RunReport(job, plan, r.value, rounds)
      ensures r.Err? ==> Excused(job, plan, r.error)
    {
      hide *;
      PlanFacts(plan, job);
      var pending := plan.tasks;
      var ledger := Ledger(map[], []);
      var calls: nat := 0;
      var usage := Usage(0, 0.0);
      rounds := 0;
      AtStart(job, plan.tasks);
      FreshStart(job);
      while pending != []
        invariant active == 0 && PeakWithin(job, peak) && (peak > 0 <==> calls > 0)
        invariant AfterRounds(job, plan.tasks, pending, ledger, calls, rounds)
        invariant usage == Spend(ledger.entries) && BudgetThrough(job, rounds)
        decreases |pending|
      {
        var ready := ReadyTasks(pending, ledger.byId);
        RoundBegins(job, plan, pending, ledger, calls, rounds);
        if ready == [] {
          return Err(Unschedulable), rounds;
        }
        if calls + |ready| > limits.maxCalls {
          return Err(CallLimitExceeded), rounds;
        }
        var ok;
        ledger, pending, calls, usage, ok := RunRound(plan, job, pending, ready, ledger, calls, usage, rounds);
        if !ok {
          return Err(WorkerLimit), rounds;
        }
        LedgerFacts(job, plan.tasks, pending, ledger, calls, rounds + 1);
        if usage.tokens > limits.maxTokens {
          OverBudget(job, plan, rounds, ledger);
          return Err(TokenLimit), rounds;
        }
        if usage.cost > limits.maxCost {
          OverBudget(job, plan, rounds, ledger);
          return Err(CostLimit), rounds;
        }
        BudgetStep(job, rounds, ledger);
        rounds := rounds + 1;
      }
      RunEnds(job, plan.tasks, ledger, calls, rounds);
      r := Ok(SchedulerResult(ledger, calls, usage, peak));
      Reported(job, plan, r.value, rounds);
    }

    // `execute` without its deadline: for a validated plan a run succeeds exactly when the graph
    // fits the call limit and the recursive evaluation respects every other limit.
    method Execute(plan: Plan, worker: (Task, seq<DependencyContext>) -> WorkerOutcome)
      returns (r: Result<SchedulerResult, RunError>, ghost rounds: nat)
      requires WellFormed(plan) && Acyclic(GraphOf(plan)) && limits.maxConcurrency >= 1
      modifies this
      ensures r.Ok? <==> |plan.tasks| <= limits.maxCalls && Permitted(Job(TaskMap(plan.tasks), limits, worker))
      ensures r.Ok? ==> RunReport(Job(TaskMap(plan.tasks), limits, worker), plan, r.value, rounds)
      ensures r.Err? ==> Excused(Job(TaskMap(plan.tasks), limits, worker), plan, r.error)
      ensures r != Err(Unschedulable) && r != Err(CallLimitExceeded)
      ensures r == Err(CallLimitBelowGraph) <==> |plan.tasks| > limits.maxCalls
    {
      hide *;
      active, peak := 0, 0;
      rounds := 0;
      var job := Job(TaskMap(plan.tasks), limits, worker);
      ExcuseMeans(job, plan);
      if |plan.tasks| > limits.maxCalls {
        return Err(CallLimitBelowGraph), rounds;
      }
      r, rounds := ExecuteRounds(plan, job);
      if r.Ok? {
        ReportMeans(job, plan, r.value, rounds);
      }
    }

  }

  lemma {:induction false} StartSound<T>(n: nat, phases: seq<Phase<T>>, permits: nat, outcomes: seq<Option<T>>)
    requires |outcomes| == n == |phases| && forall i :: 0 <= i < n ==> phases[i] == Waiting
    ensures Sound(n, Round(phases, 0, 0), permits, outcomes)
    ensures After(n, [], permits, outcomes) == Some(Round(phases, 0, 0))
  {
    NoneRunning(phases);
    assert phases == Initial<T>(n).phases;
  }

  lemma {:induction false} Unfinished<T>(n: nat, s: Round<T>)
    requires |s.phases| == n && exists i :: 0 <= i < n && !s.phases[i].Returned?
    ensures !Finished(s)
  {
  }

  lemma {:induction false} StepMeans<T>(phases: seq<Phase<T>>, active: nat, permits: nat, i: nat)
    requires CanStep(phases, active, permits, i)
    ensures i < |phases| && ((phases[i].Waiting? && active < permits) || (phases[i].Running? && active > 0))
  {
  }

  lemma {:induction false} KnownAt(job: Job, tasks: seq<Task>, results: map<Id, NodeResult>, i: nat)
    requires KnownAll(tasks, results) && i < |tasks|
    ensures Known(tasks[i].dependencies, results)
    ensures OutcomeOf(job, tasks[i], results) == None ==> SomeRaises(job, tasks, results)
  {
    hide OutcomeOf;
    assert tasks[i] in tasks;
  }

  lemma ReturnsAll(job: Job, tasks: seq<Task>, results: map<Id, NodeResult>, batch: seq<NodeResult>)
    requires KnownAll(tasks, results) && |batch| == |tasks|
    requires forall i :: 0 <= i < |tasks| ==> Outcomes(job, tasks, results)[i] == Some(batch[i])
    ensures Returns(job, tasks, results, batch)
  {
    hide OutcomeOf;
    forall i | 0 <= i < |tasks| ensures Known(tasks[i].dependencies, results) &&
      OutcomeOf(job, tasks[i], results) == Some(batch[i]) {
      assert tasks[i] in tasks && Outcomes(job, tasks, results)[i] == Some(batch[i]);
    }
  }

  lemma {:induction false} PeakBound<T>(n: nat, s: Round<T>, permits: nat, outcomes: seq<Option<T>>)
    requires Sound(n, s, permits, outcomes)
    ensures s.peak <= permits && s.peak <= n
  {
  }

  lemma {:induction false} StartKeeps<T>(n: nat, s: Round<T>, i: nat, permits: nat, outcomes: seq<Option<T>>,
                                          schedule: seq<Event>)
    requires After(n, schedule, permits, outcomes) == Some(s)
    requires Sound(n, s, permits, outcomes) && i < |s.phases| && s.phases[i].Waiting? && s.active < permits
    ensures var peak := if s.active + 1 > s.peak then s.active + 1 else s.peak;
            && Sound(n, Round(s.phases[i := Running], s.active + 1, peak), permits, outcomes)
            && After(n, schedule + [Start(i)], permits, outcomes)
                 == Some(Round(s.phases[i := Running], s.active + 1, peak))
  {
    AfterNext(n, schedule, Start(i), permits, outcomes);
    hide After;
    StepSound(n, s, Start(i), permits, outcomes);
  }

  lemma {:induction false} FinishKeeps<T>(n: nat, s: Round<T>, i: nat, permits: nat, outcomes: seq<Option<T>>,
                                           schedule: seq<Event>)
    requires After(n, schedule, permits, outcomes) == Some(s)
    requires Sound(n, s, permits, outcomes) && i < |s.phases| && s.phases[i].Running? && s.active > 0
    requires i < |outcomes| && outcomes[i].Some?
    ensures var t := Round(s.phases[i := Returned(outcomes[i].value)], s.active - 1, s.peak);
            Sound(n, t, permits, outcomes) && After(n, schedule + [Finish(i)], permits, outcomes) == Some(t)
  {
    AfterNext(n, schedule, Finish(i), permits, outcomes);
    hide After;
    StepSound(n, s, Finish(i), permits, outcomes);
  }

  lemma {:induction false} FinalPhases<T>(n: nat, s: Round<T>, permits: nat, outcomes: seq<Option<T>>)
    requires Sound(n, s, permits, outcomes) && forall i :: 0 <= i < n ==> s.phases[i].Returned?
    ensures s.active == 0 && s.peak <= permits && s.peak <= n && (n > 0 ==> s.peak >= 1) && Finished(s)
    ensures forall i :: 0 <= i < n ==> outcomes[i] == Some(s.phases[i].value)
  {
    NoneRunning(s.phases);
    assert n > 0 ==> !s.phases[0].Waiting?;
  }

  // ---- What a run guarantees ----

  // Whatever the interleaving of the workers and the listing order of the tasks, two successful
  // runs of the same tasks have the same results, rounds and totals.
  lemma {:induction false} RunDetermined(job: Job, a: Plan, resA: SchedulerResult, roundsA: nat,
                                         b: Plan, resB: SchedulerResult, roundsB: nat)
    requires RunReport(job, a, resA, roundsA) && RunReport(job, b, resB, roundsB)
    ensures resA.nodes.byId == resB.nodes.byId && roundsA == roundsB
    ensures resA.totalCalls == resB.totalCalls && resA.total == resB.total
  {
    hide Consistent, Evaluated, EntriesInOrder, BudgetThrough, LastLevel, PeakWithin;
    LastLevelUnique(job, roundsA, roundsB);
    EvaluatedUnique(job, roundsA, resA.nodes.byId, resB.nodes.byId);
    TotalsDetermined(resA.nodes, resB.nodes);
  }

  // The run takes as many rounds as the longest dependency chain has nodes.
  lemma {:induction false} RoundsAreDepth(job: Job, plan: Plan, res: SchedulerResult, rounds: nat,
                                          analysis: GraphAnalysis)
    requires Closed(GraphOfJob(job)) && RunReport(job, plan, res, rounds) && Describes(analysis, GraphOfJob(job))
    ensures rounds == analysis.depth
  {
    hide Consistent, Evaluated, EntriesInOrder, BudgetThrough, OrderedByLevel, NoDup, IsChain;
    var g := GraphOfJob(job);
    assert LastLevel(job, rounds);
    ExhaustedIffChainsWithin(g, rounds);
    ExhaustedIffChainsWithin(g, analysis.depth);
    LastLevelLeast(job, analysis.depth, rounds);
  }

  // Width and concurrency come from the same setting, so in a validated plan no worker of any
  // round ever finds the semaphore without a permit.
  lemma {:induction false} NoWorkerWaits(s: Settings, plan: Plan, r: nat, ids: set<Id>, schedule: seq<Event>,
                                         outcomes: seq<Option<NodeResult>>, i: nat)
    requires WellFormed(plan) && WithinLimits(GraphOf(plan), LimitsFromSettings(s))
    requires |outcomes| == |Among(Among(plan.tasks, Layer(GraphOf(plan), r)), ids)|
    requires var state := After(|outcomes|, schedule, SchedulerLimitsFromSettings(s).maxConcurrency, outcomes);
             state.Some? && i < |state.value.phases| == |outcomes| && state.value.phases[i].Waiting?
    ensures var permits := SchedulerLimitsFromSettings(s).maxConcurrency;
            Enabled(After(|outcomes|, schedule, permits, outcomes).value, Start(i), permits, outcomes)
  {
    var layer := Layer(GraphOf(plan), r);
    GraphIsClosed(plan);
    DoneGrows(GraphOf(plan), r, r + 1);
    hide NoDup, Done, GraphOf, Acyclic, ChainsWithin;
    AmongIds(plan.tasks, layer);
    assert Elems(Ids(plan.tasks)) * layer == layer;
    WidthOfLayer(Among(plan.tasks, layer), layer);
    AmongMembers(Among(plan.tasks, layer), ids);
    NobodyWaits(|outcomes|, schedule, SchedulerLimitsFromSettings(s).maxConcurrency, outcomes, i);
  }

  lemma WidthOfLayer(tasks: seq<Task>, layer: set<Id>)
    requires NoDup(Ids(tasks)) && Elems(Ids(tasks)) == layer
    ensures |tasks| == |layer|
  {
  }

  // What the settings promise of a run: a plan that validates under them has no more nodes, levels or
  // prompt characters than they allow, and running it under them keeps to their concurrency, context,
  // output, token and cost limits, whatever the worker does.
  lemma {:induction false} SettingsBound(s: Settings, plan: Plan,
                                         worker: (Task, seq<DependencyContext>) -> WorkerOutcome,
                                         res: SchedulerResult, rounds: nat)
    requires |plan.tasks| <= LimitsFromSettings(s).maxNodes && NodesAccepted(plan, LimitsFromSettings(s))
    requires WithinLimits(GraphOf(plan), LimitsFromSettings(s))
    requires RunReport(Job(TaskMap(plan.tasks), SchedulerLimitsFromSettings(s), worker), plan, res, rounds)
    ensures |res.nodes.entries| <= s.maxNodes && rounds <= s.maxDepth && res.peakConcurrency <= s.maxConcurrency
    ensures forall i :: 0 <= i < |plan.tasks| ==> PromptChars(plan.tasks[i]) <= s.maxContextChars
    ensures forall n :: n in res.nodes.byId ==> NodeWithin(s, TaskMap(plan.tasks), res.nodes.byId, n)
    ensures plan.tasks != [] ==> res.total.tokens <= s.maxTokens && res.total.cost <= s.maxCost
  {
    hide *;
    var job := Job(TaskMap(plan.tasks), SchedulerLimitsFromSettings(s), worker);
    SettingsSizes(s, plan, job, res, rounds);
    SettingsRounds(s, plan, job, res, rounds);
    if plan.tasks != [] {
      NoRounds(job, plan, res, rounds);
      SettingsTotals(s, plan, job, res, rounds);
    }
    forall n | n in res.nodes.byId ensures NodeWithin(s, TaskMap(plan.tasks), res.nodes.byId, n) {
      SettingsNode(s, plan, job, res, rounds, n);
    }
  }

  // A node's output and the contexts it was given are within their sizes.
  ghost predicate NodeWithin(s: Settings, byId: map<Id, Task>, results: map<Id, NodeResult>, n: Id) {
    && n in results && |results[n].output| <= s.maxOutputChars
    && n in byId && Known(byId[n].dependencies, results)
    && |JoinContexts(ContextsFrom(byId[n].dependencies, results, s.maxContextChars))| <= s.maxContextChars
  }

  lemma {:induction false} SettingsNode(s: Settings, plan: Plan, job: Job, res: SchedulerResult, rounds: nat, n: Id)
    requires job == Job(TaskMap(plan.tasks), SchedulerLimitsFromSettings(s), job.worker)
    requires RunReport(job, plan, res, rounds) && n in res.nodes.byId
    ensures NodeWithin(s, TaskMap(plan.tasks), res.nodes.byId, n)
  {
    hide Consistent, Evaluated, EntriesInOrder, TaskMap, JoinContexts, ContextsFrom, LastLevel, BudgetThrough,
      PeakWithin, Known, AnyTruncated, JoinOutputs, Hindered, WorkerAnswer;
    NodeReports(job, rounds, res.nodes.byId, n);
    ContextBudget(job.byId[n].dependencies, res.nodes.byId, s.maxContextChars);
  }

  lemma {:induction false} SettingsSizes(s: Settings, plan: Plan, job: Job, res: SchedulerResult, rounds: nat)
    requires job == Job(TaskMap(plan.tasks), SchedulerLimitsFromSettings(s), job.worker)
    requires |plan.tasks| <= LimitsFromSettings(s).maxNodes && NodesAccepted(plan, LimitsFromSettings(s))
    requires RunReport(job, plan, res, rounds)
    ensures |res.nodes.entries| <= s.maxNodes && res.peakConcurrency <= s.maxConcurrency
    ensures forall i :: 0 <= i < |plan.tasks| ==> PromptChars(plan.tasks[i]) <= s.maxContextChars
  {
    hide Consistent, Evaluated, EntriesInOrder, LastLevel, BudgetThrough, WellFormed, PromptChars, ValidId, Layer;
  }

  lemma {:induction false} SettingsRounds(s: Settings, plan: Plan, job: Job, res: SchedulerResult, rounds: nat)
    requires job == Job(TaskMap(plan.tasks), SchedulerLimitsFromSettings(s), job.worker)
    requires NodesAccepted(plan, LimitsFromSettings(s)) && WithinLimits(GraphOf(plan), LimitsFromSettings(s))
    requires RunReport(job, plan, res, rounds)
    ensures rounds <= s.maxDepth
  {
    GraphIsClosed(plan);
    ExhaustedIffChainsWithin(GraphOf(plan), s.maxDepth);
    hide Consistent, EntriesInOrder, ChainsWithin, BudgetThrough, Evaluated, Done, Acyclic, PeakWithin, Layer,
      WellFormed, Closed, PromptChars, ValidId, TaskMap;
    LastLevelLeast(job, s.maxDepth, rounds);
  }

  lemma {:induction false} NoRounds(job: Job, plan: Plan, res: SchedulerResult, rounds: nat)
    requires RunReport(job, plan, res, rounds) && plan.tasks != []
    ensures rounds > 0
  {
    hide EntriesInOrder, BudgetThrough, LastLevel, PeakWithin, Eval;
    assert rounds == 0 ==> res.nodes.byId.Keys == {};
  }

  lemma {:induction false} SettingsTotals(s: Settings, plan: Plan, job: Job, res: SchedulerResult, rounds: nat)
    requires job == Job(TaskMap(plan.tasks), SchedulerLimitsFromSettings(s), job.worker)
    requires RunReport(job, plan, res, rounds) && rounds > 0
    ensures res.total.tokens <= s.maxTokens && res.total.cost <= s.maxCost
  {
    hide Consistent, Evaluated, EntriesInOrder, LastLevel, PeakWithin, Spend, TaskMap;
    assert TokensHold(job, rounds) && CostHolds(job, rounds);
  }

  // Every task was called or skipped; skipping is reachability from a failure; and the run is
  // partial exactly when some node failed.
  lemma {:induction false} RunOutcome(job: Job, plan: Plan, res: SchedulerResult, rounds: nat)
    requires RunReport(job, plan, res, rounds)
    ensures res.totalCalls + CountSkipped(res.nodes.entries) == |plan.tasks|
    ensures forall n :: n in res.nodes.byId ==>
      (res.nodes.byId[n].status == Skipped <==> exists p :: FailurePath(job, res.nodes.byId, p, n))
    ensures IsPartial(res) <==> exists n :: n in res.nodes.byId && res.nodes.byId[n].status == Faulty
  {
    hide Consistent, Evaluated, EntriesInOrder, BudgetThrough, LastLevel, PeakWithin, FailurePath;
    forall n | n in res.nodes.byId
      ensures res.nodes.byId[n].status == Skipped <==> exists p :: FailurePath(job, res.nodes.byId, p, n)
    {
      SkippedIffReached(job, rounds, res.nodes.byId, n);
    }
    PartialIffFailure(job, rounds, res.nodes.byId);
    PartialEntries(res);
  }

  // `SchedulerResult.partial`.
  predicate IsPartial(res: SchedulerResult) {
    exists i :: 0 <= i < |res.nodes.entries| && res.nodes.entries[i].status != Succeeded
  }

  lemma PartialEntries(res: SchedulerResult)
    requires Consistent(res.nodes)
    ensures IsPartial(res) <==> Partial(res.nodes.byId)
  {
    if IsPartial(res) {
      var i :| 0 <= i < |res.nodes.entries| && res.nodes.entries[i].status != Succeeded;
      assert res.nodes.byId[res.nodes.entries[i].nodeId] == res.nodes.entries[i];
    }
    if Partial(res.nodes.byId) {
      var n :| n in res.nodes.byId && res.nodes.byId[n].status != Succeeded;
      assert res.nodes.byId[n] in res.nodes.entries;
    }
  }
}
