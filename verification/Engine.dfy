/** PARKOUR's failure and synthesis policy over a scheduled graph (nvidia_smartroute/parkour/engine.py). */
module Engine {
  import opened Wrappers
  import opened Ordering
  import opened Graphs
  import opened Planning
  import opened Evaluation
  import opened Ledgers
  import opened Progress
  import opened Scheduling

  // SynthesisRaised stands for whatever exception the synthesizer raises.
  datatype EngineError = NoUsefulResult | Stopped(error: RunError) | SynthesisRaised

  datatype EngineResult = EngineResult(
    output: string, scheduler: SchedulerResult, synthesis: WorkerResult,
    totalTokens: int, totalCost: real, partial: bool, conductorFallback: bool, conductor: Option<WorkerResult>
  )

  predicate IsUseful(r: NodeResult) {
    r.status == Succeeded && r.output != ""
  }

  function Useful(entries: seq<NodeResult>): seq<NodeResult> {
    if entries == [] then []
    else (if IsUseful(entries[0]) then [entries[0]] else []) + Useful(entries[1..])
  }

  predicate RequiresSynthesis(plan: Plan) {
    plan.synthesisInstructions.Some? && plan.synthesisInstructions.value != ""
  }

  function Synthesize(plan: Plan, useful: seq<NodeResult>,
                      synthesizer: (seq<NodeResult>, string) -> Option<WorkerResult>)
    : Option<WorkerResult>
    requires useful != []
  {
    if RequiresSynthesis(plan) then synthesizer(useful, plan.synthesisInstructions.value)
    else Some(WorkerResult(useful[0].output, useful[0].modelId, 0, 0.0))
  }

  // What `execute` returns for a graph that has been run; a synthesizer's None is an exception.
  function Conclude(plan: Plan, scheduled: SchedulerResult,
                    synthesizer: (seq<NodeResult>, string) -> Option<WorkerResult>,
                    fallback: bool, conductor: Option<WorkerResult>): (r: Result<EngineResult, EngineError>)
    ensures r == Err(NoUsefulResult) <==>
      forall i :: 0 <= i < |scheduled.nodes.entries| ==> !IsUseful(scheduled.nodes.entries[i])
    ensures r == Err(SynthesisRaised) <==>
      && Useful(scheduled.nodes.entries) != [] && RequiresSynthesis(plan)
      && synthesizer(Useful(scheduled.nodes.entries), plan.synthesisInstructions.value) == None
    ensures r.Err? ==> r.error == NoUsefulResult || r.error == SynthesisRaised
  {
    var useful := Useful(scheduled.nodes.entries);
    UsefulHead(scheduled.nodes.entries);
    if useful == [] then Err(NoUsefulResult)
    else
      var attempt := Synthesize(plan, useful, synthesizer);
      if attempt == None then Err(SynthesisRaised)
      else
        var synthesis := attempt.value;
        Ok(EngineResult(
          synthesis.output, scheduled, synthesis,
          scheduled.total.tokens + synthesis.tokens + (if conductor.Some? then conductor.value.tokens else 0),
          scheduled.total.cost + synthesis.cost + (if conductor.Some? then conductor.value.cost else 0.0),
          IsPartial(scheduled), fallback, conductor))
  }

  lemma {:induction false} UsefulHead(entries: seq<NodeResult>)
    ensures Useful(entries) == [] <==> forall i :: 0 <= i < |entries| ==> !IsUseful(entries[i])
    ensures Useful(entries) != [] ==> exists i: nat :: FirstUseful(entries, i) && Useful(entries)[0] == entries[i]
  {
    hide IsUseful;
    if entries != [] {
      UsefulHead(entries[1..]);
      if IsUseful(entries[0]) {
        assert FirstUseful(entries, 0);
      } else {
        assert Useful(entries) == Useful(entries[1..]);
        assert forall i :: 0 <= i < |entries| - 1 ==> entries[1..][i] == entries[i + 1];
        if Useful(entries) != [] {
          var i: nat :| FirstUseful(entries[1..], i) && Useful(entries[1..])[0] == entries[1..][i];
          FirstUsefulShift(entries, i);
        }
      }
    }
  }

  lemma {:induction false} FirstUsefulShift(entries: seq<NodeResult>, i: nat)
    requires entries != [] && !IsUseful(entries[0]) && FirstUseful(entries[1..], i)
    ensures FirstUseful(entries, i + 1)
  {
    hide IsUseful;
    forall j | 0 <= j < i + 1 ensures !IsUseful(entries[j]) {
      assert j > 0 ==> entries[j] == entries[1..][j - 1];
    }
    assert entries[i + 1] == entries[1..][i];
  }

  ghost predicate FirstUseful(entries: seq<NodeResult>, i: nat) {
    && i < |entries| && IsUseful(entries[i])
    && forall j :: 0 <= j < i ==> !IsUseful(entries[j])
  }

  // The useful results are those that succeeded with output, in their order; `at` says where they are.
  ghost predicate UsefulAt(entries: seq<NodeResult>, useful: seq<NodeResult>, at: seq<nat>) {
    Picks(useful, entries, at, (r: NodeResult) => r.status == Succeeded && r.output != "")
  }

  lemma {:induction false} UsefulInOrder(entries: seq<NodeResult>) returns (at: seq<nat>)
    ensures UsefulAt(entries, Useful(entries), at)
  {
    at := [];
    if entries != [] {
      hide Picks;
      var rest := UsefulInOrder(entries[1..]);
      at := PickNext(Useful(entries[1..]), entries, rest, (r: NodeResult) => r.status == Succeeded && r.output != "");
    }
  }

  // What an answer says: the synthesizer's result on the useful results when synthesis was asked for,
  // else the first of them at no further cost; the tokens and cost of the nodes, the synthesis and the
  // conductor together; and partial if some node did not succeed.
  lemma {:induction false} AnswerIs(plan: Plan, res: SchedulerResult,
                                    synthesizer: (seq<NodeResult>, string) -> Option<WorkerResult>,
                                    fallback: bool, conductor: Option<WorkerResult>)
    returns (useful: seq<NodeResult>, at: seq<nat>)
    requires Conclude(plan, res, synthesizer, fallback, conductor).Ok?
    ensures UsefulAt(res.nodes.entries, useful, at) && useful != []
    ensures var a := Conclude(plan, res, synthesizer, fallback, conductor).value;
            && (if plan.synthesisInstructions.Some? && plan.synthesisInstructions.value != "" then
                  synthesizer(useful, plan.synthesisInstructions.value) == Some(a.synthesis)
                else a.synthesis == WorkerResult(useful[0].output, useful[0].modelId, 0, 0.0))
            && a.output == a.synthesis.output && a.scheduler == res
            && (a.partial <==> exists i :: 0 <= i < |res.nodes.entries| && res.nodes.entries[i].status != Succeeded)
            && a.conductorFallback == fallback && a.conductor == conductor
            && (conductor == None ==>
                  && a.totalTokens == res.total.tokens + a.synthesis.tokens
                  && a.totalCost == res.total.cost + a.synthesis.cost)
            && (conductor.Some? ==>
                  && a.totalTokens == res.total.tokens + a.synthesis.tokens + conductor.value.tokens
                  && a.totalCost == res.total.cost + a.synthesis.cost + conductor.value.cost)
  {
    hide Useful, IsUseful, UsefulAt;
    useful := Useful(res.nodes.entries);
    at := UsefulInOrder(res.nodes.entries);
  }

  // Of the useful nodes, n has the least level and, within it, the earliest place in the plan.
  ghost predicate Answers(job: Job, plan: Plan, results: map<Id, NodeResult>, n: Id) {
    && n in results && IsUseful(results[n])
    && forall m :: m in results && IsUseful(results[m]) && m != n ==>
         Level(GraphOfJob(job), n) < Level(GraphOfJob(job), m)
         || (Level(GraphOfJob(job), n) == Level(GraphOfJob(job), m) && Earlier(plan.tasks, n, m))
  }

  // Without synthesis instructions the answer is the output of that node, whatever finished first.
  lemma {:induction false} DirectAnswer(job: Job, plan: Plan, res: SchedulerResult, rounds: nat,
                                        synthesizer: (seq<NodeResult>, string) -> Option<WorkerResult>,
                                        fallback: bool, conductor: Option<WorkerResult>)
    requires RunReport(job, plan, res, rounds) && !RequiresSynthesis(plan)
    requires Conclude(plan, res, synthesizer, fallback, conductor).Ok?
    ensures exists n :: Answers(job, plan, res.nodes.byId, n) &&
              Conclude(plan, res, synthesizer, fallback, conductor).value.output == res.nodes.byId[n].output
  {
    UsefulHead(res.nodes.entries);
    var i: nat :| FirstUseful(res.nodes.entries, i) && Useful(res.nodes.entries)[0] == res.nodes.entries[i];
    hide *;
    FirstAnswers(job, plan, res, rounds, i);
    ConcludeDirect(plan, res, synthesizer, fallback, conductor);
  }

  lemma ConcludeDirect(plan: Plan, res: SchedulerResult, synthesizer: (seq<NodeResult>, string) -> Option<WorkerResult>,
                                          fallback: bool, conductor: Option<WorkerResult>)
    requires !RequiresSynthesis(plan) && Conclude(plan, res, synthesizer, fallback, conductor).Ok?
    ensures Useful(res.nodes.entries) != []
    ensures Conclude(plan, res, synthesizer, fallback, conductor).value.output == Useful(res.nodes.entries)[0].output
  {
    UsefulHead(res.nodes.entries);
  }

  lemma {:induction false} FirstAnswers(job: Job, plan: Plan, res: SchedulerResult, rounds: nat, i: nat)
    requires RunReport(job, plan, res, rounds) && FirstUseful(res.nodes.entries, i)
    ensures Answers(job, plan, res.nodes.byId, res.nodes.entries[i].nodeId)
    ensures res.nodes.byId[res.nodes.entries[i].nodeId] == res.nodes.entries[i]
  {
    hide Evaluated, LastLevel, BudgetThrough, PeakWithin, Level, Earlier, GraphOfJob;
    var n := res.nodes.entries[i].nodeId;
    forall m | m in res.nodes.byId && IsUseful(res.nodes.byId[m]) && m != n
      ensures InOrder(GraphOfJob(job), plan.tasks, res.nodes.byId[n], res.nodes.byId[m])
    {
      var j :| 0 <= j < |res.nodes.entries| && res.nodes.entries[j] == res.nodes.byId[m];
      assert i < j;
    }
  }

  lemma {:induction false} IndexUnique(tasks: seq<Task>, i: nat, j: nat)
    requires NoDup(Ids(tasks)) && i < |tasks| && j < |tasks| && tasks[i].id == tasks[j].id
    ensures i == j
  {
    NoDupIndices(Ids(tasks));
    assert Ids(tasks)[i] == Ids(tasks)[j];
  }

  lemma EarlierAsymmetric(tasks: seq<Task>, a: Id, b: Id)
    requires NoDup(Ids(tasks)) && Earlier(tasks, a, b)
    ensures !Earlier(tasks, b, a)
  {
    hide NoDup, Ids;
    var i, j :| 0 <= i < j < |tasks| && tasks[i].id == a && tasks[j].id == b;
    forall k, l | 0 <= k < |tasks| && 0 <= l < |tasks| && tasks[k].id == b && tasks[l].id == a ensures l < k {
      IndexUnique(tasks, i, l);
      IndexUnique(tasks, j, k);
    }
  }

  // Distinct ids have distinct places in the plan, so the answering node is unique.
  lemma AnswerUnique(job: Job, plan: Plan, results: map<Id, NodeResult>, m: Id, n: Id)
    requires NoDup(Ids(plan.tasks)) && Answers(job, plan, results, m) && Answers(job, plan, results, n)
    ensures m == n
  {
    hide Level, GraphOfJob, Earlier, NoDup;
    if Earlier(plan.tasks, m, n) {
      EarlierAsymmetric(plan.tasks, m, n);
    }
  }

  // The plan was run, and `r` is what came of it: the conclusion of a complete run if the limits
  // permit one, else the exception that stopped it.
  ghost predicate RunsTo(plan: Plan, limits: SchedulerLimits, worker: (Task, seq<DependencyContext>) -> WorkerOutcome,
                         synthesizer: (seq<NodeResult>, string) -> Option<WorkerResult>, fallback: bool,
                         conductor: Option<WorkerResult>, r: Result<EngineResult, EngineError>)
  {
    var job := Job(TaskMap(plan.tasks), limits, worker);
    if |plan.tasks| <= limits.maxCalls && Permitted(job) then
      exists res, rounds: nat :: RunReport(job, plan, res, rounds) &&
        r == Conclude(plan, res, synthesizer, fallback, conductor)
    else r.Err? && r.error.Stopped? && Excused(job, plan, r.error.error)
  }

  lemma {:induction false} Ran(plan: Plan, limits: SchedulerLimits,
                               worker: (Task, seq<DependencyContext>) -> WorkerOutcome,
                               synthesizer: (seq<NodeResult>, string) -> Option<WorkerResult>, fallback: bool,
                               conductor: Option<WorkerResult>, run: Result<SchedulerResult, RunError>, rounds: nat)
    requires run.Ok? <==> |plan.tasks| <= limits.maxCalls && Permitted(Job(TaskMap(plan.tasks), limits, worker))
    requires run.Ok? ==> RunReport(Job(TaskMap(plan.tasks), limits, worker), plan, run.value, rounds)
    requires run.Err? ==> Excused(Job(TaskMap(plan.tasks), limits, worker), plan, run.error)
    ensures RunsTo(plan, limits, worker, synthesizer, fallback, conductor,
                   if run.Ok? then Conclude(plan, run.value, synthesizer, fallback, conductor)
                   else Err(Stopped(run.error)))
  {
    hide RunReport, Excused, Permitted, Conclude, TaskMap;
  }

  method Execute(scheduler: DagScheduler, plan: Plan, worker: (Task, seq<DependencyContext>) -> WorkerOutcome,
                 synthesizer: (seq<NodeResult>, string) -> Option<WorkerResult>, fallback: bool,
                 conductor: Option<WorkerResult>)
    returns (r: Result<EngineResult, EngineError>, ghost rounds: nat)
    requires WellFormed(plan) && Acyclic(GraphOf(plan)) && scheduler.limits.maxConcurrency >= 1
    modifies scheduler
    ensures r.Ok? ==>
      var job := Job(TaskMap(plan.tasks), scheduler.limits, worker);
      && Permitted(job) && RunReport(job, plan, r.value.scheduler, rounds)
      && r == Conclude(plan, r.value.scheduler, synthesizer, fallback, conductor)
    ensures r.Err? && r.error.Stopped? ==>
      Excused(Job(TaskMap(plan.tasks), scheduler.limits, worker), plan, r.error.error)
    ensures RunsTo(plan, scheduler.limits, worker, synthesizer, fallback, conductor, r)
  {
    hide *;
    var run;
    run, rounds := scheduler.Execute(plan, worker);
    Ran(plan, scheduler.limits, worker, synthesizer, fallback, conductor, run, rounds);
    match run
    case Err(e) => r := Err(Stopped(e));
    case Ok(scheduled) =>
      r := Conclude(plan, scheduled, synthesizer, fallback, conductor);
      Carries(plan, scheduled, synthesizer, fallback, conductor);
  }

  lemma Carries(plan: Plan, scheduled: SchedulerResult, synthesizer: (seq<NodeResult>, string) -> Option<WorkerResult>,
                                   fallback: bool, conductor: Option<WorkerResult>)
    ensures var r := Conclude(plan, scheduled, synthesizer, fallback, conductor);
            r.Ok? ==> r.value.scheduler == scheduled && r.value.conductorFallback == fallback
  {
  }

  ghost predicate Accepted(conductorPlan: Option<Plan>, limits: PlanLimits) {
    conductorPlan.Some? && |conductorPlan.value.tasks| <= limits.maxNodes
    && NodesAccepted(conductorPlan.value, limits) && WithinLimits(GraphOf(conductorPlan.value), limits)
  }

  // A conductor plan that fails validation is replaced by the one-node fallback, and the result says
  // so; whichever plan it is, it is run, also when the outcome is an error.
  method ExecuteConductorOutput(scheduler: DagScheduler, limits: PlanLimits, conductorPlan: Option<Plan>,
                                fallbackPlan: Plan,
                                worker: (Task, seq<DependencyContext>) -> WorkerOutcome,
                                synthesizer: (seq<NodeResult>, string) -> Option<WorkerResult>,
                                conductor: Option<WorkerResult>)
    returns (r: Result<EngineResult, EngineError>)
    requires WellFormed(fallbackPlan) && Acyclic(GraphOf(fallbackPlan)) && scheduler.limits.maxConcurrency >= 1
    modifies scheduler
    ensures var accepted := Accepted(conductorPlan, limits);
            && RunsTo(if accepted then conductorPlan.value else fallbackPlan, scheduler.limits, worker, synthesizer,
                      !accepted, conductor, r)
            && (r.Ok? ==> r.value.conductorFallback == !accepted)
  {
    hide *;
    var chosen := fallbackPlan;
    var fallback := true;
    AcceptedMeans(conductorPlan, limits);
    if conductorPlan.Some? {
      var analysis := AnalyzePlan(conductorPlan.value, limits);
      if analysis.Ok? {
        chosen, fallback := conductorPlan.value, false;
      }
    }
    ghost var rounds;
    r, rounds := Execute(scheduler, chosen, worker, synthesizer, fallback, conductor);
    if r.Ok? { Carries(chosen, r.value.scheduler, synthesizer, fallback, conductor); }
  }

  lemma AcceptedMeans(conductorPlan: Option<Plan>, limits: PlanLimits)
    ensures Accepted(conductorPlan, limits) ==>
      conductorPlan.Some? && WellFormed(conductorPlan.value) && Acyclic(GraphOf(conductorPlan.value))
    ensures conductorPlan == None ==> !Accepted(conductorPlan, limits)
    ensures conductorPlan.Some? ==> (Accepted(conductorPlan, limits) <==>
      |conductorPlan.value.tasks| <= limits.maxNodes && NodesAccepted(conductorPlan.value, limits)
      && WithinLimits(GraphOf(conductorPlan.value), limits))
  {
    hide NoDup, GraphOf, Acyclic;
  }
}
