/** What one node of a PARKOUR graph computes from the results of its dependencies, and the
    recursive evaluation of a whole graph that the round-based scheduler has to agree with
    (nvidia_smartroute/parkour/scheduler.py). */
module Evaluation {
  import opened Wrappers
  import opened Ordering
  import opened Graphs
  import opened Planning

  datatype WorkerResult = WorkerResult(output: string, modelId: string, tokens: int, cost: real)

  // LimitRaised stands for a ParkourLimitError, Failed for any other exception.
  datatype WorkerOutcome = Completed(result: WorkerResult) | Failed(error: string) | LimitRaised

  datatype DependencyContext = DependencyContext(nodeId: Id, output: string, truncated: bool)

  datatype Status = Succeeded | Faulty | Skipped

  datatype NodeResult = NodeResult(
    nodeId: Id, output: string, modelId: string, tokens: int, cost: real,
    contextTruncated: bool, status: Status, error: Option<string>
  )

  datatype SchedulerLimits = SchedulerLimits(
    maxConcurrency: nat, maxCalls: nat, maxContextChars: nat, maxOutputChars: nat, maxTokens: int, maxCost: real
  )

  function SchedulerLimitsFromSettings(s: Settings): SchedulerLimits {
    SchedulerLimits(s.maxConcurrency, s.maxCalls, s.maxContextChars, s.maxOutputChars, s.maxTokens, s.maxCost)
  }

  // Everything a run is made of, whatever order the tasks are listed in.
  // The worker is an arbitrary function of the task and its contexts.
  datatype Job = Job(
    byId: map<Id, Task>,
    limits: SchedulerLimits,
    worker: (Task, seq<DependencyContext>) -> WorkerOutcome
  )

  // ---- Contexts ----

  ghost predicate Known(dependencies: seq<Id>, results: map<Id, NodeResult>) {
    forall d :: d in dependencies ==> d in results
  }

  function ContextsFrom(dependencies: seq<Id>, results: map<Id, NodeResult>, remaining: nat): seq<DependencyContext>
    requires forall d :: d in dependencies ==> d in results
  {
    if dependencies == [] then []
    else
      var r := results[dependencies[0]];
      if r.status != Succeeded then ContextsFrom(dependencies[1..], results, remaining)
      else
        var retained := Clip(r.output, remaining);
        [DependencyContext(dependencies[0], retained, |retained| < |r.output|)]
        + ContextsFrom(dependencies[1..], results, remaining - |retained|)
  }

  ghost function JoinOutputs(dependencies: seq<Id>, results: map<Id, NodeResult>): string
    requires Known(dependencies, results)
  {
    if dependencies == [] then ""
    else
      (if results[dependencies[0]].status == Succeeded then results[dependencies[0]].output else "")
      + JoinOutputs(dependencies[1..], results)
  }

  ghost function JoinContexts(contexts: seq<DependencyContext>): string {
    if contexts == [] then "" else contexts[0].output + JoinContexts(contexts[1..])
  }

  predicate AnyTruncated(contexts: seq<DependencyContext>) {
    exists i :: 0 <= i < |contexts| && contexts[i].truncated
  }

  lemma TruncatedHeadOrTail(contexts: seq<DependencyContext>)
    requires contexts != []
    ensures AnyTruncated(contexts) <==> contexts[0].truncated || AnyTruncated(contexts[1..])
  {
    if AnyTruncated(contexts[1..]) {
      var i :| 0 <= i < |contexts[1..]| && contexts[1..][i].truncated;
      assert contexts[i + 1].truncated;
    }
  }

  lemma {:induction false} ClipConcat(a: string, b: string, n: nat)
    ensures var head := Clip(a, n);
            |head| <= n && Clip(a + b, n) == head + Clip(b, n - |head|)
  {
  }

  // The retained contexts are the first `remaining` characters of all succeeded outputs put
  // together, and something is flagged truncated exactly when those outputs do not all fit.
  lemma {:induction false} ContextBudget(dependencies: seq<Id>, results: map<Id, NodeResult>, remaining: nat)
    requires Known(dependencies, results)
    ensures var contexts := ContextsFrom(dependencies, results, remaining);
            && JoinContexts(contexts) == Clip(JoinOutputs(dependencies, results), remaining)
            && (AnyTruncated(contexts) <==> |JoinOutputs(dependencies, results)| > remaining)
            && (AnyTruncated(contexts) ==> |JoinContexts(contexts)| == remaining)
  {
    if dependencies != [] {
      var r := results[dependencies[0]];
      var contexts := ContextsFrom(dependencies, results, remaining);
      if r.status != Succeeded {
        ContextBudget(dependencies[1..], results, remaining);
        assert JoinOutputs(dependencies, results) == JoinOutputs(dependencies[1..], results);
      } else {
        var retained := Clip(r.output, remaining);
        var rest := ContextsFrom(dependencies[1..], results, remaining - |retained|);
        ContextBudget(dependencies[1..], results, remaining - |retained|);
        assert contexts[1..] == rest;
        TruncatedHeadOrTail(contexts);
        ClipConcat(r.output, JoinOutputs(dependencies[1..], results), remaining);
        hide AnyTruncated, Clip;
        if |retained| < |r.output| {
          assert JoinContexts(rest) == "";
        }
      }
    }
  }

  // One context per succeeded dependency, in dependency order.
  lemma {:induction false} ContextNodes(dependencies: seq<Id>, results: map<Id, NodeResult>, remaining: nat, d: Id)
    requires Known(dependencies, results)
    ensures (exists c :: c in ContextsFrom(dependencies, results, remaining) && c.nodeId == d)
      <==> d in dependencies && results[d].status == Succeeded
  {
    if dependencies != [] {
      var r := results[dependencies[0]];
      var rest := if r.status != Succeeded then remaining else remaining - |Clip(r.output, remaining)|;
      ContextNodes(dependencies[1..], results, rest, d);
      assert d in dependencies <==> d == dependencies[0] || d in dependencies[1..];
      var contexts := ContextsFrom(dependencies, results, remaining);
      var tail := ContextsFrom(dependencies[1..], results, rest);
      if r.status == Succeeded {
        assert forall c :: c in contexts <==> c == contexts[0] || c in tail;
        assert contexts[0] in contexts;
      }
    }
  }

  // The dependencies that succeeded, in dependency order.
  ghost function SucceededOf(dependencies: seq<Id>, results: map<Id, NodeResult>): seq<Id>
    requires Known(dependencies, results)
  {
    if dependencies == [] then []
    else
      (if results[dependencies[0]].status == Succeeded then [dependencies[0]] else [])
      + SucceededOf(dependencies[1..], results)
  }

  // The i-th context is the beginning of the output of the i-th dependency that succeeded, flagged
  // exactly when it is not all of it; after one that is cut there is nothing left for the others.
  ghost predicate IsContextOf(contexts: seq<DependencyContext>, nodes: seq<Id>, results: map<Id, NodeResult>, i: nat)
    requires Known(nodes, results) && i < |contexts| == |nodes|
  {
    var (c, output) := (contexts[i], results[nodes[i]].output);
    && c.nodeId == nodes[i] && c.output <= output && (c.truncated <==> c.output != output)
    && (c.truncated ==> forall j :: i < j < |contexts| ==> contexts[j].output == "")
  }

  lemma {:induction false} SucceededKnown(dependencies: seq<Id>, results: map<Id, NodeResult>)
    requires Known(dependencies, results)
    ensures Known(SucceededOf(dependencies, results), results)
    ensures forall d :: d in SucceededOf(dependencies, results) <==> d in dependencies && results[d].status == Succeeded
  {
    if dependencies != [] {
      SucceededKnown(dependencies[1..], results);
      assert forall d :: d in dependencies <==> d == dependencies[0] || d in dependencies[1..];
    }
  }

  lemma {:induction false} ContextCons(c: DependencyContext, rest: seq<DependencyContext>, d: Id, others: seq<Id>,
                                       results: map<Id, NodeResult>)
    requires |rest| == |others| && Known([d] + others, results) && Known(others, results)
    requires forall i: nat :: i < |rest| ==> IsContextOf(rest, others, results, i)
    requires c.nodeId == d && c.output <= results[d].output && (c.truncated <==> c.output != results[d].output)
    requires c.truncated ==> forall j :: 0 <= j < |rest| ==> rest[j].output == ""
    ensures forall i: nat :: i < |rest| + 1 ==> IsContextOf([c] + rest, [d] + others, results, i)
  {
    forall i: nat | i < |rest| + 1 ensures IsContextOf([c] + rest, [d] + others, results, i) {
      if i > 0 { assert IsContextOf(rest, others, results, i - 1); }
    }
  }

  // One context for each dependency that succeeded, in their order, cut from the first that does not fit.
  lemma {:induction false} ContextList(dependencies: seq<Id>, results: map<Id, NodeResult>, remaining: nat)
    requires Known(dependencies, results)
    ensures var contexts := ContextsFrom(dependencies, results, remaining);
            var nodes := SucceededOf(dependencies, results);
            && |contexts| == |nodes| && Known(nodes, results)
            && (forall i: nat :: i < |contexts| ==> IsContextOf(contexts, nodes, results, i))
            && (remaining == 0 ==> forall i :: 0 <= i < |contexts| ==> contexts[i].output == "")
  {
    SucceededKnown(dependencies, results);
    if dependencies != [] {
      var r := results[dependencies[0]];
      var contexts, nodes := ContextsFrom(dependencies, results, remaining), SucceededOf(dependencies, results);
      if r.status == Succeeded {
        var left := remaining - |Clip(r.output, remaining)|;
        var rest := ContextsFrom(dependencies[1..], results, left);
        var others := SucceededOf(dependencies[1..], results);
        ContextList(dependencies[1..], results, left);
        ContextCons(contexts[0], rest, dependencies[0], others, results);
      } else {
        ContextList(dependencies[1..], results, remaining);
        assert nodes == SucceededOf(dependencies[1..], results);
      }
    }
  }

  lemma {:induction false} ContextsAgree(dependencies: seq<Id>, a: map<Id, NodeResult>, b: map<Id, NodeResult>,
                                         remaining: nat)
    requires Known(dependencies, a) && Known(dependencies, b)
    requires forall d :: d in dependencies ==> a[d] == b[d]
    ensures ContextsFrom(dependencies, a, remaining) == ContextsFrom(dependencies, b, remaining)
  {
    if dependencies != [] {
      var r := a[dependencies[0]];
      assert dependencies[0] in dependencies && r == b[dependencies[0]];
      ContextsAgree(dependencies[1..], a, b,
        if r.status != Succeeded then remaining else remaining - |Clip(r.output, remaining)|);
    }
  }

  // ---- One node ----

  // A dependency that is not optional and has not succeeded blocks the task.
  predicate Blocks(job: Job, results: map<Id, NodeResult>, d: Id) {
    d in results && d in job.byId && results[d].status != Succeeded && !job.byId[d].optional
  }

  predicate IsBlocked(job: Job, task: Task, results: map<Id, NodeResult>) {
    exists d :: d in task.dependencies && Blocks(job, results, d)
  }

  function SkippedNode(id: Id): NodeResult {
    NodeResult(id, "", "", 0, 0.0, false, Skipped, Some("required dependency failed"))
  }

  // `_run_node` once its contexts are fixed; None when it raises ParkourLimitError.
  function NodeOutcome(job: Job, task: Task, contexts: seq<DependencyContext>): (r: Option<NodeResult>)
    ensures r.Some? ==> r.value.nodeId == task.id && r.value.status != Skipped
    ensures r == None <==>
      job.worker(task, contexts) == LimitRaised
      || (job.worker(task, contexts).Completed? && job.worker(task, contexts).result.modelId == "parkour")
  {
    match job.worker(task, contexts)
    case LimitRaised => None
    case Failed(error) =>
      Some(NodeResult(task.id, "", "", 0, 0.0, AnyTruncated(contexts), Faulty, Some(error)))
    case Completed(w) =>
      if w.modelId == "parkour" then None
      else Some(NodeResult(task.id, Clip(w.output, job.limits.maxOutputChars), w.modelId, w.tokens, w.cost,
                           AnyTruncated(contexts), Succeeded, None))
  }

  function NodeValue(job: Job, task: Task, results: map<Id, NodeResult>): (r: Option<NodeResult>)
    requires forall d :: d in task.dependencies ==> d in results
    ensures r.Some? ==> r.value.nodeId == task.id
    ensures r.Some? ==> (r.value.status == Skipped <==> IsBlocked(job, task, results))
  {
    if IsBlocked(job, task, results) then Some(SkippedNode(task.id))
    else NodeOutcome(job, task, ContextsFrom(task.dependencies, results, job.limits.maxContextChars))
  }

  lemma NodeValueAgrees(job: Job, task: Task, a: map<Id, NodeResult>, b: map<Id, NodeResult>)
    requires Known(task.dependencies, a) && Known(task.dependencies, b)
    requires forall d :: d in task.dependencies ==> a[d] == b[d]
    ensures IsBlocked(job, task, a) <==> IsBlocked(job, task, b)
    ensures NodeValue(job, task, a) == NodeValue(job, task, b)
  {
    ContextsAgree(task.dependencies, a, b, job.limits.maxContextChars);
    forall d | d in task.dependencies ensures Blocks(job, a, d) <==> Blocks(job, b, d) {}
  }

  // ---- The whole graph ----

  ghost function GraphOfJob(job: Job): Graph {
    Dependencies(job.byId)
  }

  // A node from the outcomes of its dependencies; None below a node that raised the limit error.
  ghost function Combine(job: Job, task: Task, outcomes: map<Id, Option<NodeResult>>): Option<NodeResult>
    requires outcomes.Keys == Elems(task.dependencies)
  {
    if exists d :: d in outcomes && outcomes[d] == None then None
    else NodeValue(job, task, map d | d in outcomes :: outcomes[d].value)
  }

  ghost function Eval(job: Job, k: nat, n: Id): Option<NodeResult>
    requires n in Done(GraphOfJob(job), k)
    decreases k
  {
    Combine(job, job.byId[n], map d | d in Elems(job.byId[n].dependencies) :: Eval(job, k - 1, d))
  }

  // `results` holds the value of every node that is done after k rounds.
  ghost predicate Evaluated(job: Job, k: nat, results: map<Id, NodeResult>) {
    && results.Keys == Done(GraphOfJob(job), k)
    && forall n :: n in results ==> Eval(job, k, n) == Some(results[n])
  }

  lemma {:induction false} EvalStep(job: Job, k: nat, n: Id, results: map<Id, NodeResult>)
    requires n in Done(GraphOfJob(job), k + 1) && Evaluated(job, k, results)
    ensures n in job.byId && Known(job.byId[n].dependencies, results)
    ensures Eval(job, k + 1, n) == NodeValue(job, job.byId[n], results)
  {
    hide NodeValue;
    var task := job.byId[n];
    forall d | d in task.dependencies ensures d in results && Eval(job, k, d) == Some(results[d]) {
      assert d in Elems(task.dependencies);
    }
    var outcomes := map d | d in Elems(task.dependencies) :: Eval(job, k, d);
    NodeValueAgrees(job, task, map d | d in outcomes :: outcomes[d].value, results);
  }

  lemma {:induction false} EvalFromDependencies(job: Job, j: nat, k: nat, n: Id)
    requires 1 <= j <= k && n in job.byId && n in Done(GraphOfJob(job), j) && n in Done(GraphOfJob(job), k)
    requires forall d :: d in Elems(job.byId[n].dependencies) ==>
      d in Done(GraphOfJob(job), j - 1) && d in Done(GraphOfJob(job), k - 1) &&
        Eval(job, j - 1, d) == Eval(job, k - 1, d)
    ensures Eval(job, j, n) == Eval(job, k, n)
  {
    hide Combine, Done;
    var dependencies := Elems(job.byId[n].dependencies);
    var a := map d | d in dependencies :: Eval(job, j - 1, d);
    var b := map d | d in dependencies :: Eval(job, k - 1, d);
    assert a == b;
  }

  // The number of rounds allowed does not matter once the node is done.
  lemma {:induction false} EvalStable(job: Job, j: nat, k: nat, n: Id)
    requires j <= k && n in Done(GraphOfJob(job), j)
    ensures n in Done(GraphOfJob(job), k) && Eval(job, j, n) == Eval(job, k, n)
    decreases j
  {
    hide Combine, Eval;
    DoneGrows(GraphOfJob(job), j, k);
    forall d | d in Elems(job.byId[n].dependencies)
      ensures d in Done(GraphOfJob(job), k - 1) && Eval(job, j - 1, d) == Eval(job, k - 1, d)
    {
      EvalStable(job, j - 1, k - 1, d);
    }
    EvalFromDependencies(job, j, k, n);
  }

  // ---- Failure and skipping ----

  // The finished results satisfy the node equation at every node.
  lemma {:induction false} Settled(job: Job, k: nat, results: map<Id, NodeResult>, n: Id)
    requires Evaluated(job, k, results) && n in results
    ensures n in job.byId && Known(job.byId[n].dependencies, results)
    ensures NodeValue(job, job.byId[n], results) == Some(results[n])
  {
    EvalStable(job, k, k + 1, n);
    EvalStep(job, k, n, results);
  }

  // A dependency path to n that starts in a failed node and has only non-optional nodes before n.
  ghost predicate FailurePath(job: Job, results: map<Id, NodeResult>, p: seq<Id>, n: Id) {
    && ChainTo(GraphOfJob(job), p, n) && |p| >= 2
    && (forall i :: 0 <= i < |p| ==> p[i] in results && p[i] in job.byId)
    && results[p[0]].status == Faulty
    && forall i :: 0 <= i < |p| - 1 ==> !job.byId[p[i]].optional
  }

  lemma {:induction false} PathSkips(job: Job, k: nat, results: map<Id, NodeResult>, p: seq<Id>, n: Id)
    requires Evaluated(job, k, results) && FailurePath(job, results, p, n)
    ensures results[n].status == Skipped
    decreases |p|
  {
    var front, d := p[..|p| - 1], p[|p| - 2];
    assert d in GraphOfJob(job)[p[|p| - 1]];
    if |p| > 2 {
      PathSkips(job, k, results, front, d);
    }
    Settled(job, k, results, n);
    assert Blocks(job, results, d);
  }

  lemma {:induction false} Blocker(job: Job, k: nat, results: map<Id, NodeResult>, n: Id, j: nat) returns (d: Id)
    requires Evaluated(job, k, results) && n in Done(GraphOfJob(job), j)
    requires n in results && results[n].status == Skipped
    ensures n in job.byId && Blocks(job, results, d)
    ensures d in GraphOfJob(job)[n] && j > 0 && d in Done(GraphOfJob(job), j - 1)
  {
    hide Evaluated, ContextsFrom, NodeOutcome, AnyTruncated;
    Settled(job, k, results, n);
    d :| d in job.byId[n].dependencies && Blocks(job, results, d);
    assert d in Elems(job.byId[n].dependencies);
  }

  lemma PathExtends(job: Job, results: map<Id, NodeResult>, front: seq<Id>, d: Id, n: Id)
    requires FailurePath(job, results, front, d) || (front == [d] && d in results && results[d].status == Faulty)
    requires n in results && n in job.byId && Blocks(job, results, d) && d in GraphOfJob(job)[n]
    ensures FailurePath(job, results, front + [n], n)
  {
  }

  lemma {:induction false} SkipHasPath(job: Job, k: nat, results: map<Id, NodeResult>, n: Id, j: nat)
    returns (p: seq<Id>)
    requires Evaluated(job, k, results) && n in Done(GraphOfJob(job), j)
    requires n in results && results[n].status == Skipped
    ensures FailurePath(job, results, p, n)
    decreases j
  {
    hide Evaluated, FailurePath, Done;
    var d := Blocker(job, k, results, n, j);
    var front := [d];
    if results[d].status == Skipped {
      front := SkipHasPath(job, k, results, d, j - 1);
    }
    PathExtends(job, results, front, d, n);
    p := front + [n];
  }

  // Skipping is reachability from a failed node through non-optional nodes.
  lemma {:induction false} SkippedIffReached(job: Job, k: nat, results: map<Id, NodeResult>, n: Id)
    requires Evaluated(job, k, results) && n in results
    ensures results[n].status == Skipped <==> exists p :: FailurePath(job, results, p, n)
  {
    if results[n].status == Skipped {
      var p := SkipHasPath(job, k, results, n, k);
    }
    if p :| FailurePath(job, results, p, n) {
      PathSkips(job, k, results, p, n);
    }
  }

  ghost predicate Partial(results: map<Id, NodeResult>) {
    exists n :: n in results && results[n].status != Succeeded
  }

  lemma {:induction false} PartialIffFailure(job: Job, k: nat, results: map<Id, NodeResult>)
    requires Evaluated(job, k, results)
    ensures Partial(results) <==> exists n :: n in results && results[n].status == Faulty
  {
    if Partial(results) {
      var n :| n in results && results[n].status != Succeeded;
      if results[n].status == Skipped {
        var p := SkipHasPath(job, k, results, n, k);
        assert p[0] in results && results[p[0]].status == Faulty;
      }
    }
  }

  // ---- What a result reports ----

  // The worker's answer to a node, on the contexts of its dependencies' results.
  ghost function WorkerAnswer(job: Job, results: map<Id, NodeResult>, n: Id): WorkerOutcome
    requires n in job.byId && Known(job.byId[n].dependencies, results)
  {
    job.worker(job.byId[n], ContextsFrom(job.byId[n].dependencies, results, job.limits.maxContextChars))
  }

  // A required dependency did not succeed.
  ghost predicate Hindered(job: Job, results: map<Id, NodeResult>, n: Id)
    requires n in job.byId
  {
    exists d :: d in job.byId[n].dependencies && d in results && d in job.byId
      && results[d].status != Succeeded && !job.byId[d].optional
  }

  // Every final result reports what became of its node: skipped with nothing spent when a required
  // dependency did not succeed, else failed with the worker's error, or succeeded with the first
  // max_output_chars characters of its output and its model, tokens and cost.
  lemma {:induction false} NodeReports(job: Job, k: nat, results: map<Id, NodeResult>, n: Id)
    requires Evaluated(job, k, results) && n in results
    ensures n in job.byId && Known(job.byId[n].dependencies, results)
    ensures var r := results[n];
            && r.nodeId == job.byId[n].id
            && (r.status == Skipped <==> Hindered(job, results, n))
            && (r.status == Skipped ==>
                  && r.output == "" && r.modelId == "" && r.tokens == 0 && r.cost == 0.0 && !r.contextTruncated
                  && r.error == Some("required dependency failed"))
    ensures var (r, w, contexts) := (results[n], WorkerAnswer(job, results, n),
              ContextsFrom(job.byId[n].dependencies, results, job.limits.maxContextChars));
            r.status != Skipped ==>
              && (r.contextTruncated <==> exists c :: c in contexts && c.truncated)
              && (r.status == Faulty <==> w.Failed?)
              && (r.status == Faulty ==>
                    && r.error == Some(w.error)
                    && r.output == "" && r.modelId == "" && r.tokens == 0 && r.cost == 0.0)
              && (r.status == Succeeded <==> w.Completed?)
              && (r.status == Succeeded ==>
                    && r.error == None && r.output <= w.result.output
                    && |r.output| == Least(|w.result.output|, job.limits.maxOutputChars)
                    && r.modelId == w.result.modelId != "parkour"
                    && r.tokens == w.result.tokens && r.cost == w.result.cost)
  {
    hide Evaluated, ContextsFrom;
    Settled(job, k, results, n);
    TruncatedMeans(ContextsFrom(job.byId[n].dependencies, results, job.limits.maxContextChars));
    ResultKeys(job, k, results, n);
    hide AnyTruncated;
  }

  function Least(a: nat, b: nat): nat {
    if a <= b then a else b
  }

  lemma TruncatedMeans(contexts: seq<DependencyContext>)
    ensures AnyTruncated(contexts) <==> exists c :: c in contexts && c.truncated
  {
    if c :| c in contexts && c.truncated {
      var i :| 0 <= i < |contexts| && contexts[i] == c;
      assert contexts[i].truncated;
    }
    if AnyTruncated(contexts) {
      var i :| 0 <= i < |contexts| && contexts[i].truncated;
      assert contexts[i] in contexts;
    }
  }

  lemma {:induction false} ResultKeys(job: Job, k: nat, results: map<Id, NodeResult>, n: Id)
    requires Evaluated(job, k, results) && n in results
    ensures forall d :: d in results ==> d in job.byId
  {
    DoneGrows(GraphOfJob(job), k, k);
    hide Eval, Done;
  }

  // A node of the next level has no value exactly when no required dependency stands in its way and
  // its worker raises the limit error or answers with the recursive model.
  lemma {:induction false} AbortIff(job: Job, k: nat, results: map<Id, NodeResult>, n: Id)
    requires Evaluated(job, k, results) && n in Done(GraphOfJob(job), k + 1)
    ensures n in job.byId && Known(job.byId[n].dependencies, results)
    ensures var w := WorkerAnswer(job, results, n);
            Eval(job, k + 1, n) == None <==>
              !Hindered(job, results, n) && (w.LimitRaised? || (w.Completed? && w.result.modelId == "parkour"))
  {
    hide Evaluated, Eval, ContextsFrom, Done;
    EvalStep(job, k, n, results);
  }
}
