/** What holds between two rounds of the scheduler, and what a finished run amounts to. */
module Progress {
  import opened Wrappers
  import opened Ordering
  import opened Graphs
  import opened Planning
  import opened Evaluation
  import opened Ledgers

  ghost predicate Earlier(tasks: seq<Task>, a: Id, b: Id) {
    exists i, j :: 0 <= i < j < |tasks| && tasks[i].id == a && tasks[j].id == b
  }

  // Of two results the earlier in the dictionary has the lower level, or the same level and then
  // was skipped or stands earlier in the plan.
  ghost predicate InOrder(g: Graph, tasks: seq<Task>, a: NodeResult, b: NodeResult) {
    || Level(g, a.nodeId) < Level(g, b.nodeId)
    || (Level(g, a.nodeId) == Level(g, b.nodeId)
        && (a.status == Skipped || (b.status != Skipped && Earlier(tasks, a.nodeId, b.nodeId))))
  }

  ghost predicate EntriesInOrder(g: Graph, tasks: seq<Task>, entries: seq<NodeResult>) {
    forall i, j :: 0 <= i < j < |entries| ==> InOrder(g, tasks, entries[i], entries[j])
  }

  ghost predicate Books(tasks: seq<Task>, pending: seq<Task>, entries: seq<NodeResult>, calls: nat) {
    calls + CountSkipped(entries) == |entries| && |entries| + |pending| == |tasks|
  }

  // The loop invariant after r rounds.
  ghost predicate AfterRounds(job: Job, tasks: seq<Task>, pending: seq<Task>, l: Ledger, calls: nat, r: nat) {
    && Consistent(l) && Evaluated(job, r, l.byId)
    && pending == Among(tasks, job.byId.Keys - Done(GraphOfJob(job), r))
    && Books(tasks, pending, l.entries, calls)
    && EntriesInOrder(GraphOfJob(job), tasks, l.entries)
    && (r > 0 ==> Layer(GraphOfJob(job), r - 1) != {})
  }

  lemma AtStart(job: Job, tasks: seq<Task>)
    requires Lists(job, tasks)
    ensures AfterRounds(job, tasks, tasks, Ledger(map[], []), 0, 0)
  {
    hide NoDup, Among;
    assert Done(GraphOfJob(job), 0) == {};
    AmongAll(tasks, job.byId.Keys);
    assert job.byId.Keys - {} == job.byId.Keys;
  }

  lemma {:induction false} AmongOrdered(tasks: seq<Task>, ids: set<Id>, i: nat, j: nat)
    requires i < j < |Among(tasks, ids)|
    ensures Earlier(tasks, Among(tasks, ids)[i].id, Among(tasks, ids)[j].id)
  {
    var front, last := tasks[..|tasks| - 1], tasks[|tasks| - 1];
    if j < |Among(front, ids)| {
      AmongOrdered(front, ids, i, j);
      var k, l :| 0 <= k < l < |front| && front[k].id == Among(front, ids)[i].id &&
        front[l].id == Among(front, ids)[j].id;
      assert tasks[k].id == front[k].id && tasks[l].id == front[l].id;
    } else {
      AmongMembers(front, ids);
      assert Among(front, ids)[i] in front;
      var k :| 0 <= k < |front| && front[k] == Among(front, ids)[i];
      assert tasks[k] == front[k];
    }
  }

  lemma {:induction false} SkippedBooks(entries: seq<NodeResult>, tasks: seq<Task>)
    ensures CountSkipped(entries + SkippedNodes(tasks)) == CountSkipped(entries) + |tasks|
    ensures Spend(entries + SkippedNodes(tasks)) == Spend(entries)
  {
    if tasks == [] {
      assert entries + SkippedNodes(tasks) == entries;
    } else {
      var front, last := tasks[..|tasks| - 1], tasks[|tasks| - 1];
      SkippedBooks(entries, front);
      assert SkippedNodes(tasks) == SkippedNodes(front) + [SkippedNode(last.id)];
      AppendSpend(entries + SkippedNodes(front), SkippedNode(last.id));
      assert entries + SkippedNodes(tasks) == entries + SkippedNodes(front) + [SkippedNode(last.id)];
    }
  }

  // One level later: skipped nodes first, then the batch of those that ran.
  ghost predicate RoundOutput(job: Job, tasks: seq<Task>, r: nat, l0: Ledger, l: Ledger, batch: seq<NodeResult>)
    requires KnownAll(Among(tasks, Layer(GraphOfJob(job), r)), l0.byId)
  {
    var ready := Among(tasks, Layer(GraphOfJob(job), r));
    var blocked, free := Among(ready, BlockedIds(job, l0.byId)), Among(ready, FreeIds(job, l0.byId));
    && Consistent(l) && l.entries == l0.entries + (SkippedNodes(blocked) + batch)
    && |batch| == |free|
    && forall i :: 0 <= i < |free| ==> free[i] in ready && NodeValue(job, free[i], l0.byId) == Some(batch[i])
  }

  lemma {:induction false} LayerKnown(job: Job, tasks: seq<Task>, r: nat, results: map<Id, NodeResult>)
    requires Lists(job, tasks) && results.Keys == Done(GraphOfJob(job), r)
    ensures KnownAll(Among(tasks, Layer(GraphOfJob(job), r)), results)
    ensures forall t :: t in Among(tasks, Layer(GraphOfJob(job), r)) ==> t.id in job.byId && job.byId[t.id] == t
    ensures NoDup(Ids(Among(tasks, Layer(GraphOfJob(job), r))))
    ensures Elems(Ids(Among(tasks, Layer(GraphOfJob(job), r)))) == Layer(GraphOfJob(job), r)
  {
    hide NoDup, Ids, Done, Among, Known;
    var g, layer := GraphOfJob(job), Layer(GraphOfJob(job), r);
    AmongIds(tasks, layer);
    AmongMembers(tasks, layer);
    DoneGrows(g, r, r + 1);
    assert Elems(Ids(tasks)) * layer == layer;
    forall t | t in Among(tasks, layer) ensures Known(t.dependencies, results) {
      DoneKnown(job, t, r, results);
    }
  }

  lemma {:induction false} DoneKnown(job: Job, t: Task, r: nat, results: map<Id, NodeResult>)
    requires t.id in job.byId && job.byId[t.id] == t
    requires t.id in Done(GraphOfJob(job), r + 1) && results.Keys == Done(GraphOfJob(job), r)
    ensures Known(t.dependencies, results)
  {
    forall d | d in t.dependencies ensures d in results { assert d in Elems(t.dependencies); }
  }

  lemma BlockedAndFree(job: Job, ready: seq<Task>, results: map<Id, NodeResult>)
    requires forall t :: t in ready ==> t.id in job.byId
    ensures var blocked, free := Among(ready, BlockedIds(job, results)), Among(ready, FreeIds(job, results));
            && |blocked| + |free| == |ready|
            && Elems(Ids(blocked + free)) == Elems(Ids(ready))
            && forall t :: t in blocked + free <==> t in ready
  {
    hide BlockedIds;
    var b, f := BlockedIds(job, results), FreeIds(job, results);
    AmongMembers(ready, b);
    AmongMembers(ready, f);
    AmongSplit(ready, b, f);
    AmongAll(ready, b + f);
    var both := Among(ready, b) + Among(ready, f);
    IdsOfSubset(both, ready);
    IdsOfSubset(ready, both);
  }

  lemma BlockedFreeCount(job: Job, ready: seq<Task>, results: map<Id, NodeResult>)
    requires forall t :: t in ready ==> t.id in job.byId
    ensures |Among(ready, BlockedIds(job, results))| + |Among(ready, FreeIds(job, results))| == |ready|
  {
    BlockedAndFree(job, ready, results);
  }

  lemma BlockedSettle(job: Job, ready: seq<Task>, results: map<Id, NodeResult>)
    requires KnownAll(ready, results)
    requires forall t :: t in ready ==> t.id in job.byId && job.byId[t.id] == t
    ensures var blocked := Among(ready, BlockedIds(job, results));
            KnownAll(blocked, results) && Settles(job, blocked, results, SkippedNodes(blocked))
  {
    hide Among;
    AmongMembers(ready, BlockedIds(job, results));
    var blocked := Among(ready, BlockedIds(job, results));
    forall i | 0 <= i < |blocked| ensures NodeValue(job, blocked[i], results) == Some(SkippedNode(blocked[i].id)) {
      assert blocked[i] in blocked;
    }
  }

  lemma {:induction false} RoundSettles(job: Job, tasks: seq<Task>, r: nat, l0: Ledger, l: Ledger,
                                        batch: seq<NodeResult>)
    requires Lists(job, tasks) && Consistent(l0) && Evaluated(job, r, l0.byId)
    requires KnownAll(Among(tasks, Layer(GraphOfJob(job), r)), l0.byId) && RoundOutput(job, tasks, r, l0, l, batch)
    ensures Evaluated(job, r + 1, l.byId)
  {
    hide Consistent, Evaluated, Among, NoDup, Done, SkippedNodes, NodeValue, BlockedIds, FreeIds, Lists, Layer;
    var ready := Among(tasks, Layer(GraphOfJob(job), r));
    EvaluatedKeys(job, r, l0.byId);
    LayerKnown(job, tasks, r, l0.byId);
    BlockedAndFree(job, ready, l0.byId);
    var blocked, free := Among(ready, BlockedIds(job, l0.byId)), Among(ready, FreeIds(job, l0.byId));
    var settled, rs := blocked + free, SkippedNodes(blocked) + batch;
    assert forall t :: t in blocked ==> t in settled;
    BlockedSettle(job, ready, l0.byId);
    assert Settles(job, settled, l0.byId, rs);
    LevelSettled(job, r, l0, l, settled, rs);
  }

  lemma {:induction false} EvaluatedKeys(job: Job, k: nat, results: map<Id, NodeResult>)
    requires Evaluated(job, k, results)
    ensures results.Keys == Done(GraphOfJob(job), k)
  {
  }

  // Levels only grow along the dictionary, and inside a level the plan decides.
  lemma {:induction false} RoundInOrder(job: Job, tasks: seq<Task>, r: nat, l0: Ledger, l: Ledger,
                                        batch: seq<NodeResult>)
    requires Lists(job, tasks) && Consistent(l0) && Evaluated(job, r, l0.byId)
    requires EntriesInOrder(GraphOfJob(job), tasks, l0.entries)
    requires KnownAll(Among(tasks, Layer(GraphOfJob(job), r)), l0.byId) && RoundOutput(job, tasks, r, l0, l, batch)
    ensures EntriesInOrder(GraphOfJob(job), tasks, l.entries)
  {
    hide *;
    OldLevels(job, r, l0);
    SkippedLevels(job, tasks, r, l0.byId);
    BatchFacts(job, tasks, r, l0, l, batch);
    var blocked := Among(Among(tasks, Layer(GraphOfJob(job), r)), BlockedIds(job, l0.byId));
    OutputEntries(job, tasks, r, l0, l, batch);
    AppendInOrder(GraphOfJob(job), tasks, r, l0.entries, SkippedNodes(blocked), batch);
  }

  lemma {:induction false} OutputEntries(job: Job, tasks: seq<Task>, r: nat, l0: Ledger, l: Ledger,
                                         batch: seq<NodeResult>)
    requires KnownAll(Among(tasks, Layer(GraphOfJob(job), r)), l0.byId) && RoundOutput(job, tasks, r, l0, l, batch)
    ensures l.entries == l0.entries
      + (SkippedNodes(Among(Among(tasks, Layer(GraphOfJob(job), r)), BlockedIds(job, l0.byId))) + batch)
  {
  }

  lemma {:induction false} OldLevels(job: Job, r: nat, l0: Ledger)
    requires Consistent(l0) && Evaluated(job, r, l0.byId)
    ensures forall i :: 0 <= i < |l0.entries| ==> Level(GraphOfJob(job), l0.entries[i].nodeId) <= r
  {
    hide Level, Done, Eval;
    forall i | 0 <= i < |l0.entries| ensures Level(GraphOfJob(job), l0.entries[i].nodeId) <= r {
      LevelOfDone(GraphOfJob(job), l0.entries[i].nodeId, r);
    }
  }

  lemma {:induction false} SkippedLevels(job: Job, tasks: seq<Task>, r: nat, results: map<Id, NodeResult>)
    ensures var blocked := Among(Among(tasks, Layer(GraphOfJob(job), r)), BlockedIds(job, results));
            forall i :: 0 <= i < |blocked| ==>
              Level(GraphOfJob(job), SkippedNodes(blocked)[i].nodeId) == r + 1 &&
                SkippedNodes(blocked)[i].status == Skipped
  {
    hide Level, Layer, BlockedIds, Among;
    var ready := Among(tasks, Layer(GraphOfJob(job), r));
    var blocked := Among(ready, BlockedIds(job, results));
    AmongMembers(ready, BlockedIds(job, results));
    forall i | 0 <= i < |blocked| ensures Level(GraphOfJob(job), blocked[i].id) == r + 1 {
      assert blocked[i] in blocked;
      LevelOfLayer(GraphOfJob(job), tasks, r, blocked[i]);
    }
  }

  lemma {:induction false} BatchFacts(job: Job, tasks: seq<Task>, r: nat, l0: Ledger, l: Ledger, batch: seq<NodeResult>)
    requires Lists(job, tasks) && Evaluated(job, r, l0.byId)
    requires KnownAll(Among(tasks, Layer(GraphOfJob(job), r)), l0.byId) && RoundOutput(job, tasks, r, l0, l, batch)
    ensures forall i :: 0 <= i < |batch| ==>
      Level(GraphOfJob(job), batch[i].nodeId) == r + 1 && batch[i].status != Skipped
    ensures forall i, j :: 0 <= i < j < |batch| ==> Earlier(tasks, batch[i].nodeId, batch[j].nodeId)
  {
    hide Evaluated, Among, Level, Layer, NodeValue, Earlier, Lists, FreeIds;
    var layer, free := Layer(GraphOfJob(job), r), FreeIds(job, l0.byId);
    var ready := Among(tasks, layer);
    EvaluatedKeys(job, r, l0.byId);
    LayerKnown(job, tasks, r, l0.byId);
    AmongAgain(tasks, layer, free);
    forall i | 0 <= i < |batch|
      ensures Level(GraphOfJob(job), batch[i].nodeId) == r + 1 && batch[i].status != Skipped
        && batch[i].nodeId == Among(ready, free)[i].id
    {
      assert Among(ready, free)[i] in Among(ready, free);
      LevelOfLayer(GraphOfJob(job), tasks, r, Among(ready, free)[i]);
      FreeValue(job, ready, l0.byId, Among(ready, free)[i]);
    }
    forall i, j | 0 <= i < j < |batch| ensures Earlier(tasks, batch[i].nodeId, batch[j].nodeId) {
      AmongOrdered(tasks, layer * free, i, j);
    }
  }

  lemma {:induction false} LevelOfLayer(g: Graph, tasks: seq<Task>, r: nat, t: Task)
    requires t in Among(tasks, Layer(g, r))
    ensures Level(g, t.id) == r + 1
  {
    AmongMembers(tasks, Layer(g, r));
    LevelIs(g, t.id, r);
  }

  lemma FreeValue(job: Job, ready: seq<Task>, results: map<Id, NodeResult>, t: Task)
    requires t in Among(ready, FreeIds(job, results)) && Known(t.dependencies, results)
    requires t.id in job.byId && job.byId[t.id] == t
    ensures NodeValue(job, t, results).Some? ==>
      NodeValue(job, t, results).value.nodeId == t.id && NodeValue(job, t, results).value.status != Skipped
  {
    AmongMembers(ready, FreeIds(job, results));
  }

  lemma {:induction false} AppendInOrder(g: Graph, tasks: seq<Task>, r: nat, done: seq<NodeResult>,
                                         skipped: seq<NodeResult>, batch: seq<NodeResult>)
    requires EntriesInOrder(g, tasks, done) && forall i :: 0 <= i < |done| ==> Level(g, done[i].nodeId) <= r
    requires forall i :: 0 <= i < |skipped| ==> Level(g, skipped[i].nodeId) == r + 1 && skipped[i].status == Skipped
    requires forall i :: 0 <= i < |batch| ==> Level(g, batch[i].nodeId) == r + 1 && batch[i].status != Skipped
    requires forall i, j :: 0 <= i < j < |batch| ==> Earlier(tasks, batch[i].nodeId, batch[j].nodeId)
    ensures EntriesInOrder(g, tasks, done + (skipped + batch))
  {
    hide Level, Earlier;
  }

  // The pending tasks split into the ready ones and those of later rounds.
  lemma {:induction false} PendingSplit(job: Job, tasks: seq<Task>, r: nat)
    ensures var g := GraphOfJob(job);
            && (job.byId.Keys - Done(g, r)) - Layer(g, r) == job.byId.Keys - Done(g, r + 1)
            && |Among(tasks, job.byId.Keys - Done(g, r))|
               == |Among(tasks, Layer(g, r))| + |Among(tasks, job.byId.Keys - Done(g, r + 1))|
  {
    var g := GraphOfJob(job);
    DoneGrows(g, r, r + 1);
    hide Done;
    AmongSplit(tasks, Layer(g, r), job.byId.Keys - Done(g, r + 1));
    assert Layer(g, r) + (job.byId.Keys - Done(g, r + 1)) == job.byId.Keys - Done(g, r);
  }

  lemma {:induction false} RoundBooks(tasks: seq<Task>, pending0: seq<Task>, pending: seq<Task>,
                                      entries0: seq<NodeResult>,
                                      blocked: seq<Task>, batch: seq<NodeResult>, calls: nat)
    requires Books(tasks, pending0, entries0, calls)
    requires |pending0| == |blocked| + |batch| + |pending|
    requires CountSkipped(entries0 + SkippedNodes(blocked) + batch) == CountSkipped(entries0 + SkippedNodes(blocked))
    ensures Books(tasks, pending, entries0 + (SkippedNodes(blocked) + batch), calls + |batch|)
  {
    SkippedBooks(entries0, blocked);
    assert entries0 + SkippedNodes(blocked) + batch == entries0 + (SkippedNodes(blocked) + batch);
  }

  lemma {:induction false} NonemptyRound(job: Job, tasks: seq<Task>, r: nat)
    requires Lists(job, tasks)
    ensures Among(tasks, Layer(GraphOfJob(job), r)) == [] <==> Layer(GraphOfJob(job), r) == {}
  {
    var layer := Layer(GraphOfJob(job), r);
    AmongMembers(tasks, layer);
    DoneGrows(GraphOfJob(job), r, r + 1);
    hide Done, NoDup, Among;
    if n :| n in layer {
      var i :| 0 <= i < |tasks| && Ids(tasks)[i] == n;
      assert tasks[i] in tasks && tasks[i] in Among(tasks, layer);
    }
    if Among(tasks, layer) != [] {
      assert Among(tasks, layer)[0] in Among(tasks, layer);
    }
  }

  lemma {:induction false} RoundAdvances(job: Job, tasks: seq<Task>, pending0: seq<Task>, pending: seq<Task>,
                                         l0: Ledger, l: Ledger, batch: seq<NodeResult>, calls: nat, r: nat)
    requires Lists(job, tasks) && AfterRounds(job, tasks, pending0, l0, calls, r)
    requires KnownAll(Among(tasks, Layer(GraphOfJob(job), r)), l0.byId) && RoundOutput(job, tasks, r, l0, l, batch)
    requires pending == Among(tasks, job.byId.Keys - Done(GraphOfJob(job), r + 1))
    requires Layer(GraphOfJob(job), r) != {}
    requires CountSkipped(l.entries) == CountSkipped(
      l0.entries + SkippedNodes(Among(Among(tasks, Layer(GraphOfJob(job), r)), BlockedIds(job, l0.byId))))
    ensures AfterRounds(job, tasks, pending, l, calls + |batch|, r + 1)
  {
    hide Evaluated, Among, Done, Lists, Consistent, EntriesInOrder, Books, RoundOutput;
    RoundSettles(job, tasks, r, l0, l, batch);
    RoundInOrder(job, tasks, r, l0, l, batch);
    EvaluatedKeys(job, r, l0.byId);
    OutputConsistent(job, tasks, r, l0, l, batch);
    RoundBooksKept(job, tasks, pending0, pending, l0, l, batch, calls, r);
  }

  lemma {:induction false} OutputConsistent(job: Job, tasks: seq<Task>, r: nat, l0: Ledger, l: Ledger,
                                            batch: seq<NodeResult>)
    requires KnownAll(Among(tasks, Layer(GraphOfJob(job), r)), l0.byId) && RoundOutput(job, tasks, r, l0, l, batch)
    ensures Consistent(l)
  {
  }

  lemma {:induction false} RoundBooksKept(job: Job, tasks: seq<Task>, pending0: seq<Task>, pending: seq<Task>,
                                          l0: Ledger, l: Ledger, batch: seq<NodeResult>, calls: nat, r: nat)
    requires Lists(job, tasks) && l0.byId.Keys == Done(GraphOfJob(job), r) && Books(tasks, pending0, l0.entries, calls)
    requires pending0 == Among(tasks, job.byId.Keys - Done(GraphOfJob(job), r))
    requires KnownAll(Among(tasks, Layer(GraphOfJob(job), r)), l0.byId) && RoundOutput(job, tasks, r, l0, l, batch)
    requires pending == Among(tasks, job.byId.Keys - Done(GraphOfJob(job), r + 1))
    requires CountSkipped(l.entries) == CountSkipped(
      l0.entries + SkippedNodes(Among(Among(tasks, Layer(GraphOfJob(job), r)), BlockedIds(job, l0.byId))))
    ensures Books(tasks, pending, l.entries, calls + |batch|)
  {
    hide Among, Done, Layer, NodeValue, Lists, BlockedIds, FreeIds, Consistent, Books, KnownAll, NoDup;
    var ready := Among(tasks, Layer(GraphOfJob(job), r));
    var blocked := Among(ready, BlockedIds(job, l0.byId));
    PendingSplit(job, tasks, r);
    LayerKnown(job, tasks, r, l0.byId);
    BlockedFreeCount(job, ready, l0.byId);
    assert l0.entries + SkippedNodes(blocked) + batch == l.entries;
    RoundBooks(tasks, pending0, pending, l0.entries, blocked, batch, calls);
  }

  // ---- What ends a run ----

  predicate WithinTokens(job: Job, u: Usage) {
    u.tokens <= job.limits.maxTokens
  }

  predicate WithinCost(job: Job, u: Usage) {
    u.cost <= job.limits.maxCost
  }

  // The spending of the first k levels, whatever order the results were recorded in.
  ghost predicate TokensHold(job: Job, k: nat) {
    forall l :: Consistent(l) && Evaluated(job, k, l.byId) ==> WithinTokens(job, Spend(l.entries))
  }

  ghost predicate CostHolds(job: Job, k: nat) {
    forall l :: Consistent(l) && Evaluated(job, k, l.byId) ==> WithinCost(job, Spend(l.entries))
  }

  // Some node's worker, with the contexts the evaluation gives it, raises the limit error.
  ghost predicate Aborts(job: Job) {
    exists k: nat, n :: n in Done(GraphOfJob(job), k) && Eval(job, k, n) == None
  }

  lemma {:induction false} SpendPermutation(a: seq<NodeResult>, b: seq<NodeResult>)
    requires multiset(a) == multiset(b)
    ensures Spend(a) == Spend(b) && CountSkipped(a) == CountSkipped(b)
    decreases |a|
  {
    assert |a| == |multiset(a)| == |multiset(b)| == |b|;
    if a != [] {
      var i := MatchLast(a, b);
      SpendPermutation(a[..|a| - 1], b[..i] + b[i + 1..]);
      SpendMove(b[..i], a[|a| - 1], b[i + 1..]);
    }
  }

  lemma {:induction false} MatchLast<T>(a: seq<T>, b: seq<T>) returns (i: nat)
    requires multiset(a) == multiset(b) && a != []
    ensures i < |b| && b == b[..i] + [a[|a| - 1]] + b[i + 1..]
    ensures multiset(a[..|a| - 1]) == multiset(b[..i] + b[i + 1..])
  {
    var front, last := a[..|a| - 1], a[|a| - 1];
    assert a == front + [last] + [] && last in multiset(b);
    i :| 0 <= i < |b| && b[i] == last;
    assert b == b[..i] + [b[i]] + b[i + 1..];
    Around(front, last, []);
    Around(b[..i], last, b[i + 1..]);
    assert front + [] == front;
    Cancel(multiset(front), multiset(b[..i] + b[i + 1..]), last);
  }

  lemma Around<T>(x: seq<T>, r: T, y: seq<T>)
    ensures multiset(x + [r] + y) == multiset(x + y) + multiset{r}
  {
  }

  lemma Cancel<T>(p: multiset<T>, q: multiset<T>, r: T)
    requires p + multiset{r} == q + multiset{r}
    ensures p == q
  {
    assert p == p + multiset{r} - multiset{r};
  }

  lemma {:induction false} SpendMove(x: seq<NodeResult>, r: NodeResult, y: seq<NodeResult>)
    ensures Spend(x + [r] + y) == Usage(Spend(x + y).tokens + r.tokens, Spend(x + y).cost + r.cost)
    ensures CountSkipped(x + [r] + y) == CountSkipped(x + y) + if r.status == Skipped then 1 else 0
    decreases |y|
  {
    if y == [] {
      AppendSpend(x, r);
      assert x + [r] + y == x + [r] && x + y == x;
    } else {
      var front, last := y[..|y| - 1], y[|y| - 1];
      SpendMove(x, r, front);
      AppendSpend(x + [r] + front, last);
      AppendSpend(x + front, last);
      assert x + [r] + y == x + [r] + front + [last] && x + y == x + front + [last];
    }
  }

  lemma EntryOnce(l: Ledger, x: NodeResult)
    requires Consistent(l)
    ensures multiset(l.entries)[x] == if x.nodeId in l.byId && l.byId[x.nodeId] == x then 1 else 0
  {
    DistinctEntries(l);
    if x in l.entries {
      CountOnce(l.entries, x);
    }
    assert x in l.entries <==> x in multiset(l.entries);
  }

  lemma DistinctEntries(l: Ledger)
    requires Consistent(l)
    ensures forall i, j :: 0 <= i < j < |l.entries| ==> l.entries[i] != l.entries[j]
  {
    forall n ensures n in Elems(NodeIds(l.entries)) <==> n in l.byId {
      if n in l.byId {
        var i :| 0 <= i < |l.entries| && l.entries[i] == l.byId[n];
        assert NodeIds(l.entries)[i] == n;
      }
    }
    assert Elems(NodeIds(l.entries)) == l.byId.Keys && |l.byId.Keys| == |l.byId|;
    NoDupIndices(NodeIds(l.entries));
    forall i, j | 0 <= i < j < |l.entries| ensures l.entries[i] != l.entries[j] {
      assert NodeIds(l.entries)[i] != NodeIds(l.entries)[j];
    }
  }

  lemma {:induction false} CountOnce<T>(s: seq<T>, x: T)
    requires forall i, j :: 0 <= i < j < |s| ==> s[i] != s[j]
    ensures multiset(s)[x] == if x in s then 1 else 0
  {
    if s != [] {
      var front, last := s[..|s| - 1], s[|s| - 1];
      assert s == front + [last];
      CountOnce(front, x);
    }
  }

  // The totals depend on the results alone, not on the order they came in.
  lemma TotalsDetermined(a: Ledger, b: Ledger)
    requires Consistent(a) && Consistent(b) && a.byId == b.byId
    ensures Spend(a.entries) == Spend(b.entries) && CountSkipped(a.entries) == CountSkipped(b.entries)
    ensures |a.entries| == |b.entries|
  {
    forall x ensures multiset(a.entries)[x] == multiset(b.entries)[x] {
      EntryOnce(a, x);
      EntryOnce(b, x);
    }
    assert multiset(a.entries) == multiset(b.entries);
    hide Consistent;
    SpendPermutation(a.entries, b.entries);
    assert |a.entries| == |multiset(a.entries)|;
  }

  lemma {:induction false} EvaluatedUnique(job: Job, k: nat, a: map<Id, NodeResult>, b: map<Id, NodeResult>)
    requires Evaluated(job, k, a) && Evaluated(job, k, b)
    ensures a == b
  {
    hide Eval, Done;
    assert forall n :: n in a ==> n in b && a[n] == b[n];
  }

  lemma {:induction false} BudgetAt(job: Job, k: nat, l: Ledger)
    requires Consistent(l) && Evaluated(job, k, l.byId)
    ensures TokensHold(job, k) <==> WithinTokens(job, Spend(l.entries))
    ensures CostHolds(job, k) <==> WithinCost(job, Spend(l.entries))
  {
    hide Consistent, Evaluated, Spend;
    forall m | Consistent(m) && Evaluated(job, k, m.byId) ensures Spend(m.entries) == Spend(l.entries) {
      EvaluatedUnique(job, k, m.byId, l.byId);
      TotalsDetermined(m, l);
    }
  }

  // The limits hold after each of the first r levels that exist.
  ghost predicate BudgetThrough(job: Job, r: nat) {
    forall k: nat :: 1 <= k <= r ==> TokensHold(job, k) && CostHolds(job, k)
  }

  ghost predicate LastLevel(job: Job, r: nat) {
    Done(GraphOfJob(job), r) == job.byId.Keys && (r > 0 ==> Layer(GraphOfJob(job), r - 1) != {})
  }

  // What a run without an exception has achieved after `rounds` rounds.
  ghost predicate Completes(job: Job, tasks: seq<Task>, l: Ledger, calls: nat, rounds: nat) {
    && Consistent(l) && Evaluated(job, rounds, l.byId) && LastLevel(job, rounds)
    && calls + CountSkipped(l.entries) == |tasks| == |l.entries|
    && EntriesInOrder(GraphOfJob(job), tasks, l.entries)
    && BudgetThrough(job, rounds)
  }

  // What has to hold for a run of the job to end without an exception.
  ghost predicate Permitted(job: Job) {
    && !Aborts(job)
    && forall k: nat :: Layer(GraphOfJob(job), k) != {} ==> TokensHold(job, k + 1) && CostHolds(job, k + 1)
  }

  // Some node of level k + 1 has no value: its worker raises the limit error.
  ghost predicate LevelAborts(job: Job, k: nat) {
    exists n :: n in Layer(GraphOfJob(job), k) && Eval(job, k + 1, n) == None
  }

  // Nothing stops a run in its first k rounds.
  ghost predicate Clear(job: Job, k: nat) {
    BudgetThrough(job, k) && forall j: nat :: j < k ==> !LevelAborts(job, j)
  }

  lemma {:induction false} EvaluatedIsClear(job: Job, k: nat, results: map<Id, NodeResult>)
    requires Evaluated(job, k, results)
    ensures forall j: nat :: j < k ==> !LevelAborts(job, j)
  {
    hide Eval, Done;
    forall j: nat, n | j < k && n in Layer(GraphOfJob(job), j) ensures Eval(job, j + 1, n).Some? {
      EvalStable(job, j + 1, k, n);
    }
  }

  lemma {:induction false} LastLevelUnique(job: Job, r: nat, s: nat)
    requires LastLevel(job, r) && LastLevel(job, s)
    ensures r == s
  {
    LastLevelLeast(job, r, s);
    LastLevelLeast(job, s, r);
  }

  lemma {:induction false} LastLevelLeast(job: Job, r: nat, s: nat)
    requires Done(GraphOfJob(job), r) == job.byId.Keys && LastLevel(job, s)
    ensures s <= r
  {
    if r < s {
      var k: nat := s - 1;
      DoneGrows(GraphOfJob(job), r, k);
      DoneGrows(GraphOfJob(job), k, s);
    }
  }

  lemma {:induction false} CompleteIsPermitted(job: Job, tasks: seq<Task>, l: Ledger, calls: nat, rounds: nat)
    requires Completes(job, tasks, l, calls, rounds)
    ensures Permitted(job)
  {
    hide Consistent, EntriesInOrder, Eval, Done;
    var g := GraphOfJob(job);
    forall k: nat, n | n in Done(g, k) ensures Eval(job, k, n).Some? {
      NoneAborts(job, l, rounds, k, n);
    }
    forall k: nat | Layer(g, k) != {} ensures k + 1 <= rounds {
      if rounds <= k {
        DoneGrows(g, rounds, k);
        DoneGrows(g, k, k + 1);
      }
    }
  }

  lemma {:induction false} NoneAborts(job: Job, l: Ledger, rounds: nat, k: nat, n: Id)
    requires Evaluated(job, rounds, l.byId) && LastLevel(job, rounds) && n in Done(GraphOfJob(job), k)
    ensures Eval(job, k, n).Some?
  {
    hide Eval, Done;
    var g := GraphOfJob(job);
    DoneGrows(g, k, k);
    assert n in Done(g, rounds);
    if k <= rounds { EvalStable(job, k, rounds, n); } else { EvalStable(job, rounds, k, n); }
  }

  lemma {:induction false} RunEnds(job: Job, tasks: seq<Task>, l: Ledger, calls: nat, r: nat)
    requires Lists(job, tasks) && AfterRounds(job, tasks, [], l, calls, r) && BudgetThrough(job, r)
    ensures Completes(job, tasks, l, calls, r)
  {
    hide Consistent, Evaluated, EntriesInOrder, BudgetThrough, NoDup;
    var g := GraphOfJob(job);
    DoneGrows(g, 0, r);
    hide Done;
    AmongMembers(tasks, job.byId.Keys - Done(g, r));
    forall n | n in job.byId ensures n in Done(g, r) {
      var i :| 0 <= i < |tasks| && Ids(tasks)[i] == n;
      assert tasks[i] in tasks;
    }
  }

  // A round that frees nothing while tasks are pending is the mark of a cycle.
  lemma {:induction false} StuckMeansCycle(job: Job, tasks: seq<Task>, pending: seq<Task>, r: nat)
    requires Lists(job, tasks) && Closed(GraphOfJob(job)) && pending != []
    requires pending == Among(tasks, job.byId.Keys - Done(GraphOfJob(job), r)) && Layer(GraphOfJob(job), r) == {}
    ensures !Acyclic(GraphOfJob(job))
  {
    var g := GraphOfJob(job);
    AmongMembers(tasks, job.byId.Keys - Done(g, r));
    assert pending[0] in pending;
    hide NoDup, Lists, Among;
    AcyclicIffExhausted(g);
    if r <= |g| { StuckForGood(g, r, |g|); } else { DoneGrows(g, |g|, r); }
  }
}
