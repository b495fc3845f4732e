/** The scheduler's result dictionary and the filters it applies to the pending tasks, and how
    recording one level of results extends an evaluation by one round. */
module Ledgers {
  import opened Wrappers
  import opened Ordering
  import opened Graphs
  import opened Planning
  import opened Evaluation

  // Python's insertion-ordered `results` dictionary: look-up by key and listing of the values.
  datatype Ledger = Ledger(byId: map<Id, NodeResult>, entries: seq<NodeResult>)

  datatype Usage = Usage(tokens: int, cost: real)

  // `results[r.node_id] = r` for a key that is new.
  function Put(l: Ledger, r: NodeResult): Ledger {
    Ledger(l.byId[r.nodeId := r], l.entries + [r])
  }

  ghost predicate Consistent(l: Ledger) {
    && (forall n :: n in l.byId ==> l.byId[n].nodeId == n && l.byId[n] in l.entries)
    && |l.byId| == |l.entries|
    && (forall i :: 0 <= i < |l.entries| ==>
         l.entries[i].nodeId in l.byId && l.byId[l.entries[i].nodeId] == l.entries[i])
  }

  lemma PutConsistent(l: Ledger, r: NodeResult)
    requires Consistent(l) && r.nodeId !in l.byId
    ensures Consistent(Put(l, r))
  {
    var after := Put(l, r);
    assert after.entries[|l.entries|] == r;
    forall n | n in after.byId ensures after.byId[n] in after.entries {
      assert n != r.nodeId ==> after.byId[n] in l.entries;
    }
  }

  ghost function NodeIds(rs: seq<NodeResult>): (ids: seq<Id>)
    ensures |ids| == |rs| && forall i :: 0 <= i < |rs| ==> ids[i] == rs[i].nodeId
  {
    seq(|rs|, i requires 0 <= i < |rs| => rs[i].nodeId)
  }

  // A longer dictionary keeps the old values and holds the new ones under their ids.
  lemma ExtendedFacts(l0: Ledger, l: Ledger, rs: seq<NodeResult>)
    requires Consistent(l0) && Consistent(l) && l.entries == l0.entries + rs
    ensures l.byId.Keys == l0.byId.Keys + Elems(NodeIds(rs))
    ensures forall n :: n in l0.byId ==> n in l.byId && l.byId[n] == l0.byId[n]
    ensures forall i :: 0 <= i < |rs| ==> rs[i].nodeId in l.byId && l.byId[rs[i].nodeId] == rs[i]
  {
    hide Consistent;
    forall i | 0 <= i < |rs| ensures rs[i].nodeId in l.byId && l.byId[rs[i].nodeId] == rs[i] {
      NewEntry(l0, l, rs, i);
    }
    forall n | n in l0.byId ensures n in l.byId && l.byId[n] == l0.byId[n] {
      OldEntry(l0, l, rs, n);
    }
    forall n ensures n in l.byId <==> n in l0.byId || n in Elems(NodeIds(rs)) {
      if n in l.byId {
        EntryOrigin(l0, l, rs, n);
      }
      if n in Elems(NodeIds(rs)) {
        var i :| 0 <= i < |rs| && NodeIds(rs)[i] == n;
      }
    }
  }

  lemma ExtendedKeys(l0: Ledger, l: Ledger, rs: seq<NodeResult>)
    requires Consistent(l0) && Consistent(l) && l.entries == l0.entries + rs
    ensures l.byId.Keys == l0.byId.Keys + Elems(NodeIds(rs))
  {
    ExtendedFacts(l0, l, rs);
  }

  lemma {:induction false} NewEntry(l0: Ledger, l: Ledger, rs: seq<NodeResult>, i: nat)
    requires Consistent(l) && l.entries == l0.entries + rs && i < |rs|
    ensures rs[i].nodeId in l.byId && l.byId[rs[i].nodeId] == rs[i]
  {
    assert l.entries[|l0.entries| + i] == rs[i];
  }

  lemma EntryOrigin(l0: Ledger, l: Ledger, rs: seq<NodeResult>, n: Id)
    requires Consistent(l0) && Consistent(l) && l.entries == l0.entries + rs && n in l.byId
    ensures n in l0.byId || n in Elems(NodeIds(rs))
  {
    var i :| 0 <= i < |l.entries| && l.entries[i] == l.byId[n];
    if i >= |l0.entries| {
      assert NodeIds(rs)[i - |l0.entries|] == n;
    } else {
      assert l0.entries[i] == l.entries[i];
    }
  }

  lemma OldEntry(l0: Ledger, l: Ledger, rs: seq<NodeResult>, n: Id)
    requires Consistent(l0) && Consistent(l) && l.entries == l0.entries + rs && n in l0.byId
    ensures n in l.byId && l.byId[n] == l0.byId[n]
  {
    var i :| 0 <= i < |l0.entries| && l0.entries[i] == l0.byId[n];
    OwnId(l0, n);
    assert l.entries[i] == l0.entries[i];
  }

  lemma OwnId(l: Ledger, n: Id)
    requires Consistent(l) && n in l.byId
    ensures l.byId[n].nodeId == n
  {
  }

  function Spend(entries: seq<NodeResult>): Usage {
    if entries == [] then Usage(0, 0.0)
    else
      var before, last := Spend(entries[..|entries| - 1]), entries[|entries| - 1];
      Usage(before.tokens + last.tokens, before.cost + last.cost)
  }

  function CountSkipped(entries: seq<NodeResult>): nat {
    if entries == [] then 0
    else CountSkipped(entries[..|entries| - 1]) + if entries[|entries| - 1].status == Skipped then 1 else 0
  }

  lemma AppendSpend(entries: seq<NodeResult>, r: NodeResult)
    ensures Spend(entries + [r]) == Usage(Spend(entries).tokens + r.tokens, Spend(entries).cost + r.cost)
    ensures CountSkipped(entries + [r]) == CountSkipped(entries) + if r.status == Skipped then 1 else 0
  {
    assert (entries + [r])[..|entries|] == entries;
  }

  // Tasks whose id is in `ids`, in plan order.
  function Among(tasks: seq<Task>, ids: set<Id>): seq<Task> {
    if tasks == [] then []
    else
      var last := tasks[|tasks| - 1];
      Among(tasks[..|tasks| - 1], ids) + if last.id in ids then [last] else []
  }

  lemma {:induction false} AmongMembers(tasks: seq<Task>, ids: set<Id>)
    ensures forall t :: t in Among(tasks, ids) <==> t in tasks && t.id in ids
    ensures |Among(tasks, ids)| <= |tasks|
  {
    if tasks != [] {
      var front, last := tasks[..|tasks| - 1], tasks[|tasks| - 1];
      AmongMembers(front, ids);
      assert forall t :: t in tasks <==> t in front || t == last;
    }
  }

  lemma {:induction false} AmongAgain(tasks: seq<Task>, a: set<Id>, b: set<Id>)
    ensures Among(Among(tasks, a), b) == Among(tasks, a * b)
  {
    if tasks != [] {
      var front, last := tasks[..|tasks| - 1], tasks[|tasks| - 1];
      AmongAgain(front, a, b);
      if last.id in a {
        assert (Among(front, a) + [last])[..|Among(front, a)|] == Among(front, a);
      } else {
        assert Among(tasks, a) == Among(front, a);
      }
    }
  }

  lemma {:induction false} AmongSame(tasks: seq<Task>, a: set<Id>, b: set<Id>)
    requires forall t :: t in tasks ==> (t.id in a <==> t.id in b)
    ensures Among(tasks, a) == Among(tasks, b)
  {
    if tasks != [] {
      var front, last := tasks[..|tasks| - 1], tasks[|tasks| - 1];
      assert last in tasks && forall t :: t in front ==> t in tasks;
      AmongSame(front, a, b);
    }
  }

  lemma {:induction false} AmongAll(tasks: seq<Task>, a: set<Id>)
    requires forall t :: t in tasks ==> t.id in a
    ensures Among(tasks, a) == tasks
  {
    if tasks != [] {
      var front, last := tasks[..|tasks| - 1], tasks[|tasks| - 1];
      assert tasks == front + [last] && last in tasks;
      AmongAll(front, a);
    }
  }

  lemma {:induction false} AmongSplit(tasks: seq<Task>, a: set<Id>, b: set<Id>)
    requires a !! b
    ensures |Among(tasks, a + b)| == |Among(tasks, a)| + |Among(tasks, b)|
  {
    if tasks != [] {
      AmongSplit(tasks[..|tasks| - 1], a, b);
    }
  }

  ghost predicate KnownAll(tasks: seq<Task>, results: map<Id, NodeResult>) {
    forall t :: t in tasks ==> Known(t.dependencies, results)
  }

  // The job's tasks are exactly the listed ones, each under its own id.
  ghost predicate Lists(job: Job, tasks: seq<Task>) {
    && NoDup(Ids(tasks)) && job.byId.Keys == Elems(Ids(tasks))
    && forall t :: t in tasks ==> t.id in job.byId && job.byId[t.id] == t
  }

  function ReadyTasks(pending: seq<Task>, results: map<Id, NodeResult>): seq<Task> {
    if pending == [] then []
    else
      var last := pending[|pending| - 1];
      ReadyTasks(pending[..|pending| - 1], results)
      + if forall d :: d in last.dependencies ==> d in results then [last] else []
  }

  lemma {:induction false} ReadyAmong(pending: seq<Task>, results: map<Id, NodeResult>, ids: set<Id>)
    requires forall t :: t in pending ==> (t.id in ids <==> Known(t.dependencies, results))
    ensures ReadyTasks(pending, results) == Among(pending, ids)
  {
    if pending != [] {
      var front, last := pending[..|pending| - 1], pending[|pending| - 1];
      assert last in pending && forall t :: t in front ==> t in pending;
      ReadyAmong(front, results, ids);
    }
  }

  // The tasks a round finds ready are the next Kahn level, in plan order.
  lemma {:induction false} ReadyIsLayer(job: Job, tasks: seq<Task>, results: map<Id, NodeResult>, r: nat)
    requires Lists(job, tasks) && results.Keys == Done(GraphOfJob(job), r)
    ensures ReadyTasks(Among(tasks, job.byId.Keys - Done(GraphOfJob(job), r)), results)
      == Among(tasks, Layer(GraphOfJob(job), r))
  {
    hide NoDup;
    var g := GraphOfJob(job);
    var open := job.byId.Keys - Done(g, r);
    AmongMembers(tasks, open);
    forall t | t in Among(tasks, open) ensures t.id in Done(g, r + 1) <==> Known(t.dependencies, results) {
      assert t in tasks && g[t.id] == Elems(t.dependencies);
      assert Known(t.dependencies, results) <==> Elems(t.dependencies) <= results.Keys;
    }
    ReadyAmong(Among(tasks, open), results, Done(g, r + 1));
    AmongAgain(tasks, open, Done(g, r + 1));
    DoneGrows(g, r, r + 1);
    assert open * Done(g, r + 1) == Layer(g, r);
  }

  ghost function BlockedIds(job: Job, results: map<Id, NodeResult>): set<Id> {
    set n | n in job.byId && IsBlocked(job, job.byId[n], results)
  }

  ghost function FreeIds(job: Job, results: map<Id, NodeResult>): set<Id> {
    job.byId.Keys - BlockedIds(job, results)
  }

  ghost function SkippedNodes(tasks: seq<Task>): (rs: seq<NodeResult>)
    ensures |rs| == |tasks| && forall i :: 0 <= i < |tasks| ==> rs[i] == SkippedNode(tasks[i].id)
  {
    seq(|tasks|, i requires 0 <= i < |tasks| => SkippedNode(tasks[i].id))
  }

  // `pending.pop(id)`.
  function Pop(pending: seq<Task>, id: Id): seq<Task> {
    Among(pending, Elems(Ids(pending)) - {id})
  }

  lemma PopAmong(tasks: seq<Task>, ids: set<Id>, id: Id)
    ensures Pop(Among(tasks, ids), id) == Among(tasks, ids - {id})
  {
    var kept := Elems(Ids(Among(tasks, ids))) - {id};
    AmongMembers(tasks, ids);
    AmongAgain(tasks, ids, kept);
    forall t | t in tasks ensures t.id in ids * kept <==> t.id in ids - {id} {
      if t.id in ids {
        assert t in Among(tasks, ids);
        var i :| 0 <= i < |Among(tasks, ids)| && Among(tasks, ids)[i] == t;
        assert Ids(Among(tasks, ids))[i] == t.id;
      }
    }
    AmongSame(tasks, ids * kept, ids - {id});
  }

  lemma IdsSplit(tasks: seq<Task>)
    requires NoDup(Ids(tasks)) && tasks != []
    ensures var front, last := tasks[..|tasks| - 1], tasks[|tasks| - 1];
            && NoDup(Ids(front)) && last.id !in Elems(Ids(front))
            && Ids(tasks) == Ids(front) + [last.id] && Elems(Ids(tasks)) == Elems(Ids(front)) + {last.id}
  {
    var front, last := tasks[..|tasks| - 1], tasks[|tasks| - 1];
    assert Ids(tasks)[..|front|] == Ids(front) && Ids(tasks) == Ids(front) + [last.id];
    NextIsNew(Ids(tasks), |front|);
    NoDupPrefix(Ids(tasks), |front|);
    ElemsAppend(Ids(front), last.id);
  }

  lemma {:induction false} AmongIds(tasks: seq<Task>, ids: set<Id>)
    requires NoDup(Ids(tasks))
    ensures NoDup(Ids(Among(tasks, ids))) && Elems(Ids(Among(tasks, ids))) == Elems(Ids(tasks)) * ids
  {
    if tasks != [] {
      hide NoDup, Elems, Ids;
      var front, last := tasks[..|tasks| - 1], tasks[|tasks| - 1];
      IdsSplit(tasks);
      AmongIds(front, ids);
      var known := Elems(Ids(front));
      if last.id in ids {
        assert Ids(Among(tasks, ids)) == Ids(Among(front, ids)) + [last.id];
        AppendDistinct(Ids(Among(front, ids)), last.id);
        assert (known + {last.id}) * ids == known * ids + {last.id};
      } else {
        assert Among(tasks, ids) == Among(front, ids);
        assert (known + {last.id}) * ids == known * ids;
      }
    }
  }

  // The results `rs` are the values of `tasks` over `results`.
  ghost predicate Settles(job: Job, tasks: seq<Task>, results: map<Id, NodeResult>, rs: seq<NodeResult>)
    requires KnownAll(tasks, results)
  {
    |rs| == |tasks| && forall i :: 0 <= i < |tasks| ==> NodeValue(job, tasks[i], results) == Some(rs[i])
  }

  lemma SettledIds(job: Job, results: map<Id, NodeResult>, tasks: seq<Task>, rs: seq<NodeResult>)
    requires KnownAll(tasks, results) && Settles(job, tasks, results, rs)
    ensures NodeIds(rs) == Ids(tasks)
  {
    hide NodeValue;
    forall i | 0 <= i < |rs| ensures NodeIds(rs)[i] == Ids(tasks)[i] {
      assert tasks[i] in tasks;
      ValueId(job, tasks[i], results);
    }
  }

  lemma {:induction false} SettledEntry(job: Job, r: nat, results: map<Id, NodeResult>, tasks: seq<Task>,
                                        rs: seq<NodeResult>, n: Id, i: nat)
    requires Evaluated(job, r, results) && KnownAll(tasks, results) && Settles(job, tasks, results, rs)
    requires i < |tasks| && tasks[i].id == n && n in job.byId && job.byId[n] == tasks[i]
    requires n in Done(GraphOfJob(job), r + 1)
    ensures Eval(job, r + 1, n) == Some(rs[i])
  {
    hide Eval, NodeValue, Evaluated;
    assert tasks[i] in tasks;
    EvalStep(job, r, n, results);
  }

  // Values of a whole level turn an evaluation of k rounds into one of k + 1.
  lemma {:induction false} LevelSettled(job: Job, r: nat, l0: Ledger, l: Ledger, tasks: seq<Task>, rs: seq<NodeResult>)
    requires Evaluated(job, r, l0.byId) && Consistent(l0) && Consistent(l) && l.entries == l0.entries + rs
    requires KnownAll(tasks, l0.byId) && Settles(job, tasks, l0.byId, rs)
    requires Elems(Ids(tasks)) == Layer(GraphOfJob(job), r)
    requires forall t :: t in tasks ==> t.id in job.byId && job.byId[t.id] == t
    ensures Evaluated(job, r + 1, l.byId)
  {
    hide Consistent, Eval, Done, Settles, KnownAll;
    var g := GraphOfJob(job);
    ExtendedFacts(l0, l, rs);
    DoneGrows(g, r, r + 1);
    SettledIds(job, l0.byId, tasks, rs);
    assert l.byId.Keys == Done(g, r + 1);
    forall n | n in l.byId ensures Eval(job, r + 1, n) == Some(l.byId[n]) {
      if n in l0.byId {
        EvalStable(job, r, r + 1, n);
      } else {
        var i :| 0 <= i < |tasks| && Ids(tasks)[i] == n;
        assert tasks[i] in tasks && NodeIds(rs)[i] == n;
        SettledEntry(job, r, l0.byId, tasks, rs, n, i);
      }
    }
  }

  lemma ValueId(job: Job, task: Task, results: map<Id, NodeResult>)
    requires Known(task.dependencies, results)
    ensures NodeValue(job, task, results).Some? ==> NodeValue(job, task, results).value.nodeId == task.id
  {
  }

  lemma {:induction false} AmongNext(tasks: seq<Task>, i: nat, ids: set<Id>)
    requires i < |tasks|
    ensures Among(tasks[..i + 1], ids) == Among(tasks[..i], ids) + if tasks[i].id in ids then [tasks[i]] else []
  {
    assert tasks[..i + 1][..i] == tasks[..i];
  }
}
