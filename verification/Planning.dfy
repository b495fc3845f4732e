/** Execution plans, their validation, and the deterministic Kahn traversal
    (nvidia_smartroute/parkour/planning.py). */
module Planning {
  import opened Wrappers
  import opened Ordering
  import opened Graphs

  datatype Task = Task(
    id: Id,
    systemPrompt: string,
    userPrompt: string,
    dependencies: seq<Id>,
    optional: bool
  )

  datatype Plan = Plan(tasks: seq<Task>, synthesisInstructions: Option<string>)

  // The PARKOUR settings both limit records are built from.
  datatype Settings = Settings(
    maxNodes: nat, maxDepth: nat, maxConcurrency: nat, maxCalls: nat,
    maxContextChars: nat, maxOutputChars: nat, maxTokens: int, maxCost: real
  )

  datatype PlanLimits = PlanLimits(maxNodes: nat, maxDepth: nat, maxWidth: nat, maxPromptChars: nat)

  function LimitsFromSettings(s: Settings): PlanLimits {
    PlanLimits(s.maxNodes, s.maxDepth, s.maxConcurrency, s.maxContextChars)
  }

  datatype PlanError =
    | TooManyNodes
    | DuplicateIds
    | InvalidId(id: Id)
    | RepeatedDependency(id: Id)
    | SelfDependency(id: Id)
    | MissingDependency(id: Id, dependency: Id)
    | PromptTooLong(id: Id, chars: nat)
    | TooDeep
    | TooWide(width: nat)
    | HasCycle

  datatype GraphAnalysis = GraphAnalysis(topologicalOrder: seq<Id>, depth: nat, width: nat)

  function Ids(tasks: seq<Task>): (ids: seq<Id>)
    ensures |ids| == |tasks| && forall i :: 0 <= i < |tasks| ==> ids[i] == tasks[i].id
  {
    seq(|tasks|, i requires 0 <= i < |tasks| => tasks[i].id)
  }

  // `{task.id: task for task in tasks}`.
  function TaskMap(tasks: seq<Task>): map<Id, Task> {
    if tasks == [] then map[]
    else
      var last := tasks[|tasks| - 1];
      TaskMap(tasks[..|tasks| - 1])[last.id := last]
  }

  function Dependencies(byId: map<Id, Task>): Graph {
    map n | n in byId :: Elems(byId[n].dependencies)
  }

  function GraphOf(plan: Plan): Graph {
    Dependencies(TaskMap(plan.tasks))
  }

  ghost predicate TaskSound(t: Task, known: set<Id>) {
    && NoDup(t.dependencies)
    && t.id !in t.dependencies
    && Elems(t.dependencies) <= known
  }

  // What the graph needs for the traversal to make sense.
  ghost predicate WellFormed(plan: Plan) {
    && NoDup(Ids(plan.tasks))
    && forall i :: 0 <= i < |plan.tasks| ==> TaskSound(plan.tasks[i], Elems(Ids(plan.tasks)))
  }

  // `[a-z][a-z0-9_-]{0,31}`, matched in full.
  predicate ValidId(id: Id) {
    && 1 <= |id.text| <= 32
    && 'a' <= id.text[0] <= 'z'
    && forall c :: c in id.text[1..] ==> 'a' <= c <= 'z' || '0' <= c <= '9' || c == '_' || c == '-'
  }

  function PromptChars(t: Task): nat {
    |t.systemPrompt| + |t.userPrompt|
  }

  ghost predicate NodesAccepted(plan: Plan, limits: PlanLimits) {
    && WellFormed(plan)
    && forall i :: 0 <= i < |plan.tasks| ==>
         ValidId(plan.tasks[i].id) && PromptChars(plan.tasks[i]) <= limits.maxPromptChars
  }

  lemma {:induction false} TaskMapEntries(tasks: seq<Task>)
    ensures TaskMap(tasks).Keys == Elems(Ids(tasks))
    ensures forall n :: n in TaskMap(tasks) ==> TaskMap(tasks)[n].id == n && TaskMap(tasks)[n] in tasks
  {
    if tasks != [] {
      var front, last := tasks[..|tasks| - 1], tasks[|tasks| - 1];
      TaskMapEntries(front);
      assert tasks == front + [last];
      assert Ids(tasks) == Ids(front) + [last.id];
      ElemsAppend(Ids(front), last.id);
    }
  }

  lemma {:induction false} TaskMapLookup(tasks: seq<Task>, i: nat)
    requires NoDup(Ids(tasks)) && i < |tasks|
    ensures tasks[i].id in TaskMap(tasks) && TaskMap(tasks)[tasks[i].id] == tasks[i]
  {
    hide TaskMap;
    TaskMapEntries(tasks);
    NoDupIndices(Ids(tasks));
    assert Ids(tasks)[i] in Elems(Ids(tasks));
    var j :| 0 <= j < |tasks| && tasks[j] == TaskMap(tasks)[tasks[i].id];
    assert Ids(tasks)[j] == Ids(tasks)[i];
  }

  lemma GraphKeys(plan: Plan)
    requires WellFormed(plan)
    ensures GraphOf(plan).Keys == Elems(Ids(plan.tasks)) && |GraphOf(plan)| == |plan.tasks|
  {
    hide TaskMap;
    TaskMapEntries(plan.tasks);
    assert |GraphOf(plan).Keys| == |GraphOf(plan)|;
  }

  lemma {:induction false} GraphEntry(plan: Plan, i: nat)
    requires WellFormed(plan) && i < |plan.tasks|
    ensures plan.tasks[i].id in GraphOf(plan) && GraphOf(plan)[plan.tasks[i].id] == Elems(plan.tasks[i].dependencies)
    ensures Elems(plan.tasks[i].dependencies) <= GraphOf(plan).Keys
  {
    GraphKeys(plan);
    hide TaskMap, NoDup;
    TaskMapLookup(plan.tasks, i);
    assert TaskSound(plan.tasks[i], Elems(Ids(plan.tasks)));
  }

  lemma GraphIsClosed(plan: Plan)
    requires WellFormed(plan)
    ensures Closed(GraphOf(plan))
    ensures GraphOf(plan).Keys == Elems(Ids(plan.tasks)) && |GraphOf(plan)| == |plan.tasks|
    ensures forall i :: 0 <= i < |plan.tasks| ==>
      plan.tasks[i].id in GraphOf(plan) && GraphOf(plan)[plan.tasks[i].id] == Elems(plan.tasks[i].dependencies)
  {
    hide GraphOf, NoDup, WellFormed;
    GraphKeys(plan);
    forall i | 0 <= i < |plan.tasks|
      ensures plan.tasks[i].id in GraphOf(plan) && GraphOf(plan)[plan.tasks[i].id] == Elems(plan.tasks[i].dependencies)
    {
      GraphEntry(plan, i);
    }
    forall n | n in GraphOf(plan) ensures GraphOf(plan)[n] <= GraphOf(plan).Keys {
      var i :| 0 <= i < |plan.tasks| && Ids(plan.tasks)[i] == n;
      GraphEntry(plan, i);
    }
  }

  lemma IdsOfSubset(a: seq<Task>, b: seq<Task>)
    requires Elems(a) <= Elems(b)
    ensures Elems(Ids(a)) <= Elems(Ids(b))
  {
    forall n | n in Elems(Ids(a)) ensures n in Elems(Ids(b)) {
      var i :| 0 <= i < |a| && Ids(a)[i] == n;
      assert a[i] in Elems(a);
      var j :| 0 <= j < |b| && b[j] == a[i];
      assert Ids(b)[j] == n;
    }
  }

  lemma IdsOfPermutation(a: seq<Task>, b: seq<Task>)
    requires NoDup(Ids(a)) && multiset(a) == multiset(b)
    ensures NoDup(Ids(b)) && Elems(Ids(a)) == Elems(Ids(b)) && Elems(a) == Elems(b)
  {
    SameMultiset(b, a);
    IdsOfSubset(a, b);
    IdsOfSubset(b, a);
    assert Elems(Ids(a)) == Elems(Ids(b));
  }

  lemma SharedTask(a: seq<Task>, b: seq<Task>, n: Id)
    requires NoDup(Ids(a)) && Elems(b) <= Elems(a) && n in TaskMap(b)
    ensures n in TaskMap(a) && TaskMap(a)[n] == TaskMap(b)[n]
  {
    hide NoDup, TaskMap;
    TaskMapEntries(b);
    assert TaskMap(b)[n] in Elems(b);
    var i :| 0 <= i < |a| && a[i] == TaskMap(b)[n];
    TaskMapLookup(a, i);
  }

  // Listing the same tasks in another order does not change the graph.
  lemma ListingOrderIrrelevant(a: Plan, b: Plan)
    requires WellFormed(a) && multiset(a.tasks) == multiset(b.tasks)
    ensures WellFormed(b) && TaskMap(b.tasks) == TaskMap(a.tasks) && GraphOf(b) == GraphOf(a)
  {
    hide NoDup, TaskMap, Ids, TaskSound;
    IdsOfPermutation(a.tasks, b.tasks);
    forall i | 0 <= i < |b.tasks| ensures TaskSound(b.tasks[i], Elems(Ids(b.tasks))) {
      assert b.tasks[i] in Elems(b.tasks);
    }
    forall n | n in TaskMap(a.tasks) ensures n in TaskMap(b.tasks) && TaskMap(b.tasks)[n] == TaskMap(a.tasks)[n] {
      SharedTask(b.tasks, a.tasks, n);
    }
    forall n | n in TaskMap(b.tasks) ensures n in TaskMap(a.tasks) {
      SharedTask(a.tasks, b.tasks, n);
    }
    assert TaskMap(a.tasks) == TaskMap(b.tasks);
  }

  function FirstMissing(dependencies: seq<Id>, known: set<Id>): (r: Option<Id>)
    ensures r == None <==> Elems(dependencies) <= known
    ensures r.Some? ==> r.value in dependencies && r.value !in known
  {
    if dependencies == [] then None
    else if dependencies[0] !in known then Some(dependencies[0])
    else FirstMissing(dependencies[1..], known)
  }

  function FirstInvalid(ids: seq<Id>): (r: Option<Id>)
    ensures r == None <==> forall i :: 0 <= i < |ids| ==> ValidId(ids[i])
    ensures r.Some? ==> r.value in ids && !ValidId(r.value)
  {
    if ids == [] then None
    else if !ValidId(ids[0]) then Some(ids[0])
    else FirstInvalid(ids[1..])
  }

  function CheckTask(t: Task, known: set<Id>, limits: PlanLimits): (r: Option<PlanError>)
    ensures r == None <==> TaskSound(t, known) && PromptChars(t) <= limits.maxPromptChars
  {
    var missing := FirstMissing(t.dependencies, known);
    if |t.dependencies| != |Elems(t.dependencies)| then Some(RepeatedDependency(t.id))
    else if t.id in t.dependencies then Some(SelfDependency(t.id))
    else if missing.Some? then Some(MissingDependency(t.id, missing.value))
    else if PromptChars(t) > limits.maxPromptChars then Some(PromptTooLong(t.id, PromptChars(t)))
    else None
  }

  ghost predicate FailsFirst(tasks: seq<Task>, known: set<Id>, limits: PlanLimits, i: int, e: PlanError) {
    && 0 <= i < |tasks| && CheckTask(tasks[i], known, limits) == Some(e)
    && forall j :: 0 <= j < i ==> CheckTask(tasks[j], known, limits) == None
  }

  function CheckTasks(tasks: seq<Task>, known: set<Id>, limits: PlanLimits): (r: Option<PlanError>)
    ensures r == None <==> forall i :: 0 <= i < |tasks| ==>
      TaskSound(tasks[i], known) && PromptChars(tasks[i]) <= limits.maxPromptChars
    ensures r.Some? ==> exists i :: FailsFirst(tasks, known, limits, i, r.value)
  {
    if tasks == [] then None
    else
      var first := CheckTask(tasks[0], known, limits);
      if first.Some? then
        assert FailsFirst(tasks, known, limits, 0, first.value);
        first
      else
        var rest := CheckTasks(tasks[1..], known, limits);
        assert forall i :: 0 <= i < |tasks| - 1 ==> tasks[1..][i] == tasks[i + 1];
        assert rest.Some? ==> exists i :: FailsFirst(tasks, known, limits, i, rest.value) by {
          if rest.Some? {
            var i :| FailsFirst(tasks[1..], known, limits, i, rest.value);
            assert FailsFirst(tasks, known, limits, i + 1, rest.value);
          }
        }
        rest
  }

  function ValidateNodes(plan: Plan, limits: PlanLimits): (r: Result<seq<Id>, PlanError>)
    ensures r.Ok? <==> NodesAccepted(plan, limits)
    ensures r.Ok? ==> r.value == Ids(plan.tasks)
    ensures r == Err(DuplicateIds) <==> !NoDup(Ids(plan.tasks))
  {
    var ids := Ids(plan.tasks);
    var invalid := FirstInvalid(ids);
    var broken := CheckTasks(plan.tasks, Elems(ids), limits);
    if |ids| != |Elems(ids)| then Err(DuplicateIds)
    else if invalid.Some? then Err(InvalidId(invalid.value))
    else if broken.Some? then Err(broken.value)
    else Ok(ids)
  }

  // Position i holds the first id outside the given ones.
  ghost predicate FirstOutside(ids: seq<Id>, inside: set<Id>, i: nat) {
    i < |ids| && ids[i] !in inside && forall j :: 0 <= j < i ==> ids[j] in inside
  }

  ghost predicate FirstIllegal(ids: seq<Id>, i: nat) {
    i < |ids| && !ValidId(ids[i]) && forall j :: 0 <= j < i ==> ValidId(ids[j])
  }

  lemma {:induction false} FirstMissingIs(dependencies: seq<Id>, known: set<Id>)
    ensures var missing := FirstMissing(dependencies, known);
            missing.Some? ==> exists i: nat :: FirstOutside(dependencies, known, i) && dependencies[i] == missing.value
  {
    if dependencies != [] {
      if dependencies[0] !in known {
        assert FirstOutside(dependencies, known, 0);
      } else {
        var rest := dependencies[1..];
        FirstMissingIs(rest, known);
        if FirstMissing(dependencies, known).Some? {
          var i: nat :| FirstOutside(rest, known, i) && rest[i] == FirstMissing(rest, known).value;
          assert forall j :: 0 < j <= i ==> dependencies[j] == rest[j - 1];
          assert FirstOutside(dependencies, known, i + 1);
        }
      }
    }
  }

  lemma {:induction false} FirstInvalidIs(ids: seq<Id>)
    ensures var invalid := FirstInvalid(ids);
            invalid.Some? ==> exists i: nat :: FirstIllegal(ids, i) && ids[i] == invalid.value
  {
    hide ValidId;
    if ids != [] {
      if !ValidId(ids[0]) {
        assert FirstIllegal(ids, 0);
      } else {
        var rest := ids[1..];
        FirstInvalidIs(rest);
        if FirstInvalid(ids).Some? {
          var i: nat :| FirstIllegal(rest, i) && rest[i] == FirstInvalid(rest).value;
          assert forall j :: 0 < j <= i ==> ids[j] == rest[j - 1];
          assert FirstIllegal(ids, i + 1);
        }
      }
    }
  }

  // Which error a task gives, in the order of the checks: a repetition, itself, the first missing
  // dependency, too long prompts.
  ghost predicate TaskGives(t: Task, known: set<Id>, limits: PlanLimits, e: PlanError) {
    var repeats := exists i, j :: 0 <= i < j < |t.dependencies| && t.dependencies[i] == t.dependencies[j];
    var chars := |t.systemPrompt| + |t.userPrompt|;
    match e
    case RepeatedDependency(id) => id == t.id && repeats
    case SelfDependency(id) => id == t.id && !repeats && t.id in t.dependencies
    case MissingDependency(id, d) =>
      && id == t.id && !repeats && t.id !in t.dependencies
      && exists i: nat :: FirstOutside(t.dependencies, known, i) && t.dependencies[i] == d
    case PromptTooLong(id, n) =>
      && id == t.id && !repeats && t.id !in t.dependencies && (forall d :: d in t.dependencies ==> d in known)
      && n == chars > limits.maxPromptChars
    case _ => false
  }

  lemma {:induction false} TaskErrors(t: Task, known: set<Id>, limits: PlanLimits, e: PlanError)
    ensures CheckTask(t, known, limits) == Some(e) <==> TaskGives(t, known, limits, e)
  {
    NoDupIndices(t.dependencies);
    FirstMissingIs(t.dependencies, known);
    forall i: nat, j: nat | FirstOutside(t.dependencies, known, i) &&
      FirstOutside(t.dependencies, known, j) ensures i == j {}
    assert Elems(t.dependencies) <= known <==> forall d :: d in t.dependencies ==> d in known;
  }

  // Which error a plan's nodes give: duplicate ids, else the first id outside the grammar, else that
  // of the first task that fails.
  lemma {:induction false} NodeErrors(plan: Plan, limits: PlanLimits, e: PlanError)
    requires ValidateNodes(plan, limits) == Err(e)
    ensures var ids := Ids(plan.tasks);
            if exists i, j :: 0 <= i < j < |ids| && ids[i] == ids[j] then e == DuplicateIds
            else if exists i: nat :: FirstIllegal(ids, i) then
              exists i: nat :: FirstIllegal(ids, i) && e == InvalidId(ids[i])
            else
              exists i: nat :: FailsAt(plan, limits, i, e)
  {
    var ids := Ids(plan.tasks);
    NoDupIndices(ids);
    FirstInvalidIs(ids);
    hide NoDup, ValidId, CheckTask, TaskSound;
    if NoDup(ids) && FirstInvalid(ids) == None {
      var i :| FailsFirst(plan.tasks, Elems(ids), limits, i, e);
      TaskErrors(plan.tasks[i], Elems(ids), limits, e);
      forall j: nat, d | j < i ensures !TaskGives(plan.tasks[j], Elems(ids), limits, d) {
        TaskErrors(plan.tasks[j], Elems(ids), limits, d);
      }
      assert FailsAt(plan, limits, i, e);
    }
  }

  ghost predicate FailsAt(plan: Plan, limits: PlanLimits, i: nat, e: PlanError) {
    var known := Elems(Ids(plan.tasks));
    && i < |plan.tasks| && TaskGives(plan.tasks[i], known, limits, e)
    && forall j: nat, d :: j < i ==> !TaskGives(plan.tasks[j], known, limits, d)
  }

  // Topological position: earlier level first, alphabetical within a level.
  ghost predicate Before(g: Graph, a: Id, b: Id) {
    Level(g, a) < Level(g, b) || (Level(g, a) == Level(g, b) && Precedes(a, b))
  }

  ghost predicate OrderedByLevel(g: Graph, order: seq<Id>) {
    forall i, j :: 0 <= i < j < |order| ==> Before(g, order[i], order[j])
  }

  // The facts a traversal must report about an acyclic graph.
  ghost predicate Describes(a: GraphAnalysis, g: Graph) {
    && Elems(a.topologicalOrder) == g.Keys && NoDup(a.topologicalOrder)
    && OrderedByLevel(g, a.topologicalOrder)
    && ChainsWithin(g, a.depth) && (a.depth > 0 ==> exists p :: IsChain(g, p) && |p| == a.depth)
    && (forall k: nat :: |Layer(g, k)| <= a.width) && (a.width > 0 ==> exists k: nat :: |Layer(g, k)| == a.width)
  }

  ghost predicate WithinLimits(g: Graph, limits: PlanLimits) {
    && Acyclic(g)
    && ChainsWithin(g, limits.maxDepth)
    && forall k: nat :: |Layer(g, k)| <= limits.maxWidth
  }

  lemma BeforeIsStrict(g: Graph)
    ensures StrictOrder((a, b) => Before(g, a, b))
  {
    forall a ensures !Before(g, a, a) { LessIrreflexive(a.text); }
    forall a, b, c | Before(g, a, b) && Before(g, b, c) ensures Before(g, a, c) {
      if Precedes(a, b) && Precedes(b, c) { LessTransitive(a.text, b.text, c.text); }
    }
  }

  // The graph alone determines the report, so neither the order of tasks in the plan
  // nor the order of dependencies in a task can show in it.
  lemma AnalysisUnique(g: Graph, a: GraphAnalysis, b: GraphAnalysis)
    requires Describes(a, g) && Describes(b, g)
    ensures a == b
  {
    BeforeIsStrict(g);
    UniqueListing((x, y) => Before(g, x, y), a.topologicalOrder, b.topologicalOrder);
    if a.depth > 0 { var p :| IsChain(g, p) && |p| == a.depth; }
    if b.depth > 0 { var p :| IsChain(g, p) && |p| == b.depth; }
    if a.width > 0 { var k: nat :| |Layer(g, k)| == a.width; }
    if b.width > 0 { var k: nat :| |Layer(g, k)| == b.width; }
  }

  lemma {:induction false} DependenciesComeFirst(g: Graph, a: GraphAnalysis, i: nat, j: nat)
    requires Closed(g) && Acyclic(g) && Describes(a, g)
    requires i < |a.topologicalOrder| && j < |a.topologicalOrder|
    requires a.topologicalOrder[j] in g && a.topologicalOrder[i] in g[a.topologicalOrder[j]]
    ensures i < j
  {
    var first, second := a.topologicalOrder[i], a.topologicalOrder[j];
    LevelRecurrence(g, second);
    assert j < i ==> Before(g, second, first);
  }

  // ---- The traversal ----

  // The nodes among `seen` that depend on n.
  ghost function Dependents(g: Graph, n: Id, seen: set<Id>): set<Id> {
    set c | c in seen && c in g && n in g[c]
  }

  ghost predicate ChildrenOf(g: Graph, children: map<Id, seq<Id>>, seen: set<Id>) {
    && children.Keys == g.Keys
    && forall n :: n in g ==> NoDup(children[n]) && Elems(children[n]) == Dependents(g, n, seen)
  }

  lemma EdgeAdded(g: Graph, n: Id, before: seq<Id>, after: seq<Id>, seen: set<Id>, c: Id)
    requires NoDup(before) && Elems(before) == Dependents(g, n, seen) && c in g && c !in seen
    requires after == if n in g[c] then before + [c] else before
    ensures NoDup(after) && Elems(after) == Dependents(g, n, seen + {c})
  {
    if n in g[c] {
      assert c !in Elems(before);
      AppendDistinct(before, c);
    }
  }

  method AddEdges(children0: map<Id, seq<Id>>, task: Task) returns (children: map<Id, seq<Id>>)
    requires NoDup(task.dependencies) && Elems(task.dependencies) <= children0.Keys
    ensures children.Keys == children0.Keys
    ensures forall n :: n in children ==>
      children[n] == if n in task.dependencies then children0[n] + [task.id] else children0[n]
  {
    children := children0;
    for j := 0 to |task.dependencies|
      invariant children.Keys == children0.Keys
      invariant forall n :: n in children ==>
        children[n] == if n in task.dependencies[..j] then children0[n] + [task.id] else children0[n]
    {
      var dependency := task.dependencies[j];
      assert dependency in Elems(task.dependencies);
      NextIsNew(task.dependencies, j);
      assert dependency !in task.dependencies[..j];
      children := children[dependency := children[dependency] + [task.id]];
    }
    assert task.dependencies[..|task.dependencies|] == task.dependencies;
  }

  lemma TaskAdded(g: Graph, task: Task, seen: set<Id>, before: map<Id, seq<Id>>, after: map<Id, seq<Id>>)
    requires ChildrenOf(g, before, seen)
    requires task.id in g && g[task.id] == Elems(task.dependencies) && task.id !in seen
    requires after.Keys == before.Keys && forall n :: n in after ==>
      after[n] == if n in task.dependencies then before[n] + [task.id] else before[n]
    ensures ChildrenOf(g, after, seen + {task.id})
  {
    hide NoDup, Dependents;
    forall n | n in g ensures NoDup(after[n]) && Elems(after[n]) == Dependents(g, n, seen + {task.id}) {
      EdgeAdded(g, n, before[n], after[n], seen, task.id);
    }
  }

  method BuildChildren(plan: Plan) returns (children: map<Id, seq<Id>>)
    requires WellFormed(plan)
    ensures ChildrenOf(GraphOf(plan), children, GraphOf(plan).Keys)
  {
    hide NoDup, GraphOf, ChildrenOf, WellFormed, Closed;
    ghost var g := GraphOf(plan);
    GraphIsClosed(plan);
    DistinctIds(plan);
    var ids := Ids(plan.tasks);
    children := map n | n in Elems(ids) :: [];
    NoEdgesYet(g, children);
    ghost var seen: set<Id> := {};
    for i := 0 to |plan.tasks|
      invariant seen == Elems(ids[..i]) && children.Keys == g.Keys && ChildrenOf(g, children, seen)
    {
      NextIsNew(ids, i);
      EdgesKnown(plan, i);
      ghost var before := children;
      children := AddEdges(children, plan.tasks[i]);
      TaskAdded(g, plan.tasks[i], seen, before, children);
      seen := seen + {ids[i]};
    }
    assert ids[..|plan.tasks|] == ids;
  }

  lemma DistinctIds(plan: Plan)
    requires WellFormed(plan)
    ensures NoDup(Ids(plan.tasks))
  {
  }

  lemma {:induction false} EdgesKnown(plan: Plan, i: nat)
    requires WellFormed(plan) && i < |plan.tasks|
    ensures NoDup(plan.tasks[i].dependencies) && Elems(plan.tasks[i].dependencies) <= GraphOf(plan).Keys
    ensures plan.tasks[i].id in GraphOf(plan) && GraphOf(plan)[plan.tasks[i].id] == Elems(plan.tasks[i].dependencies)
  {
    GraphEntry(plan, i);
    hide GraphOf;
    assert TaskSound(plan.tasks[i], Elems(Ids(plan.tasks)));
  }

  lemma NoEdgesYet(g: Graph, children: map<Id, seq<Id>>)
    requires children.Keys == g.Keys && forall n :: n in g ==> children[n] == []
    ensures ChildrenOf(g, children, {})
  {
  }

  // The number of dependencies of c still outside the processed nodes.
  ghost function Open(g: Graph, c: Id, processed: set<Id>): nat
    requires c in g
  {
    |g[c] - processed|
  }

  ghost predicate Indegrees(g: Graph, indegree: map<Id, int>, processed: set<Id>) {
    && indegree.Keys == g.Keys
    && forall c :: c in g ==> indegree[c] == Open(g, c, processed)
  }

  // The nodes that became free after the nodes in `done` were complete.
  ghost function FreeNodes(g: Graph, done: set<Id>, processed: set<Id>): set<Id> {
    set c | c in g && g[c] <= processed && !(g[c] <= done)
  }

  ghost predicate Freed(g: Graph, ready: seq<Id>, done: set<Id>, processed: set<Id>) {
    NoDup(ready) && Elems(ready) == FreeNodes(g, done, processed)
  }

  // Midway through the children of one node: those in `handled` have been counted down.
  ghost predicate CountedDown(g: Graph, indegree: map<Id, int>, ready: seq<Id>,
                              done: set<Id>, processed: set<Id>, handled: set<Id>) {
    && indegree.Keys == g.Keys
    && (forall c :: c in g ==> indegree[c] == Open(g, c, processed) - if c in handled then 1 else 0)
    && NoDup(ready)
    && Elems(ready) == FreeNodes(g, done, processed) + set c | c in handled && c in g && Open(g, c, processed) == 1
  }

  lemma CountDown(g: Graph, indegree: map<Id, int>, ready: seq<Id>, done: set<Id>, processed: set<Id>,
                  handled: set<Id>, child: Id, node: Id)
    requires CountedDown(g, indegree, ready, done, processed, handled)
    requires child in g && child !in handled && node in g[child] && node !in processed
    ensures var degree := indegree[child] - 1;
            var freed := if degree == 0 then ready + [child] else ready;
            CountedDown(g, indegree[child := degree], freed, done, processed, handled + {child})
  {
    hide Open, NoDup;
    assert child !in Elems(ready);
    AppendDistinct(ready, child);
  }

  lemma AllCountedDown(g: Graph, indegree: map<Id, int>, ready: seq<Id>, done: set<Id>, processed: set<Id>, node: Id)
    requires CountedDown(g, indegree, ready, done, processed, Dependents(g, node, g.Keys))
    requires node !in processed && done <= processed
    ensures Indegrees(g, indegree, processed + {node}) && Freed(g, ready, done, processed + {node})
  {
    hide NoDup;
    forall c | c in g
      ensures indegree[c] == Open(g, c, processed + {node})
      ensures c in Elems(ready) <==> c in FreeNodes(g, done, processed + {node})
    {
      Removing(g[c], processed, node);
    }
  }

  lemma Removing(deps: set<Id>, processed: set<Id>, node: Id)
    requires node !in processed
    ensures node in deps ==> |deps - (processed + {node})| == |deps - processed| - 1
    ensures node !in deps ==> deps - (processed + {node}) == deps - processed
    ensures node in deps ==> (|deps - processed| == 1 <==> deps <= processed + {node})
  {
    if node in deps {
      assert deps - processed == (deps - (processed + {node})) + {node};
    }
  }

  method Process(ghost g: Graph, node: Id, children: seq<Id>, indegree0: map<Id, int>, ready0: seq<Id>,
                 ghost done: set<Id>, ghost processed: set<Id>)
    returns (indegree: map<Id, int>, ready: seq<Id>)
    requires node in g && node !in processed && done <= processed
    requires NoDup(children) && Elems(children) == Dependents(g, node, g.Keys)
    requires Indegrees(g, indegree0, processed) && Freed(g, ready0, done, processed)
    ensures Indegrees(g, indegree, processed + {node}) && Freed(g, ready, done, processed + {node})
  {
    hide CountedDown, Freed, Indegrees;
    indegree, ready := indegree0, ready0;
    NothingCounted(g, indegree, ready, done, processed);
    var sorted := Sort(children);
    SortDistinct(children);
    ghost var handled := {};
    for i := 0 to |sorted|
      invariant handled == Elems(sorted[..i]) && indegree.Keys == g.Keys
      invariant CountedDown(g, indegree, ready, done, processed, handled)
    {
      var child := sorted[i];
      NextIsNew(sorted, i);
      assert child in Elems(sorted);
      CountDown(g, indegree, ready, done, processed, handled, child, node);
      indegree := indegree[child := indegree[child] - 1];
      if indegree[child] == 0 {
        ready := ready + [child];
      }
      handled := handled + {child};
    }
    assert sorted[..|sorted|] == sorted;
    AllCountedDown(g, indegree, ready, done, processed, node);
  }

  lemma NothingCounted(g: Graph, indegree: map<Id, int>, ready: seq<Id>,
                                          done: set<Id>, processed: set<Id>)
    requires Indegrees(g, indegree, processed) && Freed(g, ready, done, processed)
    ensures CountedDown(g, indegree, ready, done, processed, {}) && indegree.Keys == g.Keys
  {
  }

  lemma {:induction false} LevelStep(g: Graph, children: map<Id, seq<Id>>, current: seq<Id>, done: set<Id>,
                                     processed: set<Id>, i: nat)
    requires ChildrenOf(g, children, g.Keys)
    requires NoDup(current) && Elems(current) <= g.Keys && Elems(current) !! done
    requires i < |current| && processed == done + Elems(current[..i])
    ensures current[i] in g && current[i] in children && current[i] !in processed && done <= processed
    ensures NoDup(children[current[i]]) && Elems(children[current[i]]) == Dependents(g, current[i], g.Keys)
    ensures processed + {current[i]} == done + Elems(current[..i + 1])
    ensures current[..i + 1] == current[..i] + [current[i]]
  {
    NextIsNew(current, i);
    hide NoDup;
    assert current[i] in Elems(current);
  }

  // One whole level: every node of `current` is appended to the order and its children freed.
  method ProcessLevel(ghost g: Graph, current: seq<Id>, children: map<Id, seq<Id>>, indegree0: map<Id, int>,
                      order0: seq<Id>, ghost done: set<Id>)
    returns (indegree: map<Id, int>, order: seq<Id>, ready: seq<Id>)
    requires ChildrenOf(g, children, g.Keys) && Indegrees(g, indegree0, done)
    requires NoDup(current) && Elems(current) <= g.Keys && Elems(current) !! done
    ensures order == order0 + current
    ensures Indegrees(g, indegree, done + Elems(current))
    ensures Freed(g, ready, done, done + Elems(current)) && Increasing(ready)
  {
    hide *;
    indegree, order, ready := indegree0, order0, [];
    ghost var processed := done;
    NothingFreed(g, current, done);
    for i := 0 to |current|
      invariant order == order0 + current[..i]
      invariant processed == done + Elems(current[..i])
      invariant Indegrees(g, indegree, processed) && Freed(g, ready, done, processed)
    {
      var node := current[i];
      LevelStep(g, children, current, done, processed, i);
      order := order + [node];
      indegree, ready := Process(g, node, children[node], indegree, ready, done, processed);
      processed := processed + {node};
    }
    SortFreed(g, ready, done, processed);
    ready := Sort(ready);
  }

  lemma NothingFreed(g: Graph, current: seq<Id>, done: set<Id>)
    ensures Freed(g, [], done, done) && current[..0] == [] && done == done + Elems(current[..0])
    ensures current[..|current|] == current
  {
  }

  lemma SortFreed(g: Graph, ready: seq<Id>, done: set<Id>, processed: set<Id>)
    requires Freed(g, ready, done, processed)
    ensures Freed(g, Sort(ready), done, processed) && Increasing(Sort(ready))
  {
    SortedIncreasing(ready);
  }

  method Roots(ids: seq<Id>, indegree: map<Id, int>) returns (ready: seq<Id>)
    requires NoDup(ids) && Elems(ids) == indegree.Keys
    ensures NoDup(ready) && Elems(ready) == ZeroAmong(indegree, indegree.Keys)
  {
    ready := [];
    ghost var seen: set<Id> := {};
    hide NoDup;
    assert NoDup(ready) by { EmptyDistinct(); }
    for i := 0 to |ids|
      invariant seen == Elems(ids[..i])
      invariant NoDup(ready) && Elems(ready) == ZeroAmong(indegree, seen)
    {
      NextIsNew(ids, i);
      assert ids[i] in Elems(ids) && ids[i] !in Elems(ready);
      AppendDistinct(ready, ids[i]);
      if indegree[ids[i]] == 0 {
        ready := ready + [ids[i]];
      }
      seen := seen + {ids[i]};
    }
    assert ids[..|ids|] == ids;
  }

  lemma EmptyDistinct()
    ensures NoDup<Id>([])
  {
  }

  ghost function ZeroAmong(indegree: map<Id, int>, seen: set<Id>): set<Id> {
    set n | n in seen && n in indegree && indegree[n] == 0
  }

  ghost predicate Increasing(s: seq<Id>) {
    forall i, j :: 0 <= i < j < |s| ==> Precedes(s[i], s[j])
  }

  // The loop invariant: `depth` levels are in the order, the next one is ready.
  ghost predicate Traversed(g: Graph, indegree: map<Id, int>, ready: seq<Id>, order: seq<Id>, depth: nat) {
    && Indegrees(g, indegree, Done(g, depth))
    && NoDup(ready) && Elems(ready) == Layer(g, depth)
    && Increasing(ready)
    && NoDup(order) && Elems(order) == Done(g, depth) && OrderedByLevel(g, order)
    && (depth > 0 ==> Layer(g, depth - 1) != {})
  }

  ghost predicate Widest(g: Graph, depth: nat, width: nat) {
    && (forall k: nat :: k < depth ==> |Layer(g, k)| <= width)
    && (width > 0 ==> exists k: nat :: k < depth && |Layer(g, k)| == width)
  }

  lemma RootsAreFirst(g: Graph)
    ensures Done(g, 0) == {} && Layer(g, 0) == set n | n in g && g[n] == {}
  {
  }

  lemma SortedIncreasing(s: seq<Id>)
    requires NoDup(s)
    ensures NoDup(Sort(s)) && Elems(Sort(s)) == Elems(s) && Increasing(Sort(s))
  {
    SortDistinct(s);
  }

  lemma OpenAtStart(g: Graph, n: Id)
    requires n in g
    ensures Open(g, n, {}) == |g[n]| && (|g[n]| == 0 <==> g[n] == {})
  {
    assert g[n] - {} == g[n];
  }

  lemma InitialDegrees(g: Graph, indegree: map<Id, int>)
    requires indegree.Keys == g.Keys && forall n :: n in g ==> indegree[n] == |g[n]|
    ensures Indegrees(g, indegree, Done(g, 0)) && ZeroAmong(indegree, g.Keys) == Layer(g, 0)
  {
    hide Done, Layer, Open;
    RootsAreFirst(g);
    forall n | n in g ensures Open(g, n, {}) == |g[n]| && (indegree[n] == 0 <==> g[n] == {}) {
      OpenAtStart(g, n);
    }
    assert ZeroAmong(indegree, g.Keys) == set n | n in g && g[n] == {};
  }

  lemma InitiallyTraversed(g: Graph, indegree: map<Id, int>, ready: seq<Id>)
    requires indegree.Keys == g.Keys && forall n :: n in g ==> indegree[n] == |g[n]|
    requires NoDup(ready) && Elems(ready) == ZeroAmong(indegree, g.Keys)
    ensures Traversed(g, indegree, Sort(ready), [], 0)
  {
    hide Sort, Done, Layer, Before, Increasing, NoDup, Indegrees;
    RootsAreFirst(g);
    InitialDegrees(g, indegree);
    SortedIncreasing(ready);
    EmptyDistinct();
  }

  lemma Degrees(plan: Plan, n: Id)
    requires WellFormed(plan) && n in TaskMap(plan.tasks)
    ensures |TaskMap(plan.tasks)[n].dependencies| == |GraphOf(plan)[n]|
  {
    TaskMapEntries(plan.tasks);
    var i :| 0 <= i < |plan.tasks| && plan.tasks[i] == TaskMap(plan.tasks)[n];
  }

  method Start(plan: Plan, ids: seq<Id>) returns (indegree: map<Id, int>, ready: seq<Id>)
    requires WellFormed(plan) && ids == Ids(plan.tasks)
    ensures Traversed(GraphOf(plan), indegree, ready, [], 0)
  {
    ghost var g := GraphOf(plan);
    GraphIsClosed(plan);
    var byId := TaskMap(plan.tasks);
    indegree := map n | n in byId :: |byId[n].dependencies|;
    forall n | n in g ensures indegree[n] == |g[n]| { Degrees(plan, n); }
    hide NoDup, GraphOf, TaskMap;
    ready := Roots(ids, indegree);
    InitiallyTraversed(g, indegree, ready);
    ready := Sort(ready);
  }

  lemma {:induction false} StillTraversed(g: Graph, indegree0: map<Id, int>, current: seq<Id>, order: seq<Id>,
                       indegree: map<Id, int>, ready: seq<Id>, k: nat)
    requires Traversed(g, indegree0, current, order, k) && current != []
    requires Indegrees(g, indegree, Done(g, k) + Elems(current)) && Increasing(ready)
    requires Freed(g, ready, Done(g, k), Done(g, k) + Elems(current))
    ensures Traversed(g, indegree, ready, order + current, k + 1)
  {
    hide Increasing, NoDup, Indegrees, OrderedByLevel, Done, FreeNodes;
    LayersAdd(g, k);
    assert Done(g, k + 1) == Done(g, k) + Elems(current);
    OrderExtends(g, order, current, k);
    NoDupAppend(order, current);
    assert current[0] in Elems(current);
  }

  lemma {:induction false} LayersAdd(g: Graph, k: nat)
    ensures Done(g, k + 1) == Done(g, k) + Layer(g, k)
    ensures FreeNodes(g, Done(g, k), Done(g, k + 1)) == Layer(g, k + 1)
  {
    DoneGrows(g, k, k + 1);
    DoneGrows(g, k + 1, k + 2);
  }

  method NextLevel(ghost g: Graph, current: seq<Id>, children: map<Id, seq<Id>>, indegree0: map<Id, int>,
                   order0: seq<Id>, ghost k: nat)
    returns (indegree: map<Id, int>, order: seq<Id>, ready: seq<Id>)
    requires ChildrenOf(g, children, g.Keys) && Traversed(g, indegree0, current, order0, k) && current != []
    ensures order == order0 + current && Traversed(g, indegree, ready, order, k + 1)
  {
    DoneGrows(g, k + 1, k + 1);
    hide Increasing, NoDup, Indegrees, Freed, Done, ChildrenOf, OrderedByLevel;
    indegree, order, ready := ProcessLevel(g, current, children, indegree0, order0, Done(g, k));
    StillTraversed(g, indegree0, current, order0, indegree, ready, k);
  }

  lemma {:induction false} OrderExtends(g: Graph, order: seq<Id>, current: seq<Id>, k: nat)
    requires OrderedByLevel(g, order) && Elems(order) == Done(g, k)
    requires Elems(current) == Layer(g, k) && Increasing(current)
    ensures OrderedByLevel(g, order + current)
  {
    forall n | n in order ensures Level(g, n) <= k { assert n in Elems(order); LevelOfDone(g, n, k); }
    forall n | n in current ensures Level(g, n) == k + 1 { assert n in Elems(current); LevelIs(g, n, k); }
  }

  lemma {:induction false} Stable(g: Graph, k: nat)
    requires Layer(g, k) == {}
    ensures Done(g, k + 1) == Done(g, k) && Layer(g, k + 1) == {}
  {
    DoneGrows(g, k, k + 1);
    forall n | n in Done(g, k + 1) ensures n in Done(g, k) { assert n !in Layer(g, k); }
    assert Done(g, k + 2) == Done(g, k + 1);
  }

  lemma {:induction false} StuckForGood(g: Graph, k: nat, j: nat)
    requires Layer(g, k) == {} && k <= j
    ensures Done(g, j) == Done(g, k) && Layer(g, j) == {}
    decreases j
  {
    if k < j {
      StuckForGood(g, k, j - 1);
      Stable(g, j - 1);
    }
  }

  // What holds when a round frees nothing.
  lemma {:induction false} FinalDepth(g: Graph, depth: nat)
    requires Closed(g) && Layer(g, depth) == {} && (depth > 0 ==> Layer(g, depth - 1) != {})
    ensures Acyclic(g) <==> Done(g, depth) == g.Keys
    ensures Acyclic(g) ==> ChainsWithin(g, depth) && (depth > 0 ==> exists p :: IsChain(g, p) && |p| == depth)
  {
    AcyclicIffExhausted(g);
    if Acyclic(g) {
      if |g| < depth { DoneGrows(g, |g|, depth); DoneGrows(g, depth, depth); } else { StuckForGood(g, depth, |g|); }
      ExhaustedIffChainsWithin(g, depth);
      if depth > 0 {
        var n :| n in Layer(g, depth - 1);
        DoneGrows(g, depth - 1, depth);
        var p := LongChain(g, n, depth - 1);
      }
    }
  }

  lemma {:induction false} FinalWidth(g: Graph, depth: nat, width: nat)
    requires Layer(g, depth) == {} && Widest(g, depth, width)
    ensures forall k: nat :: |Layer(g, k)| <= width
    ensures width > 0 ==> exists k: nat :: |Layer(g, k)| == width
  {
    forall k: nat ensures |Layer(g, k)| <= width {
      if depth <= k { StuckForGood(g, depth, k); }
    }
  }

  lemma {:induction false} ClosingFacts(g: Graph, indegree: map<Id, int>, order: seq<Id>, depth: nat, width: nat)
    requires Closed(g) && Traversed(g, indegree, [], order, depth) && Widest(g, depth, width)
    ensures Acyclic(g) <==> |order| == |g|
    ensures Layer(g, depth) == {} && forall k: nat :: |Layer(g, k)| <= width
    ensures Acyclic(g) ==> Describes(GraphAnalysis(order, depth, width), g)
  {
    hide Done, Layer, Acyclic, ChainsWithin, OrderedByLevel, Closed, Increasing, Indegrees, IsChain;
    assert Layer(g, depth) == {};
    FinalDepth(g, depth);
    FinalWidth(g, depth, width);
    DoneGrows(g, 0, depth);
    SubsetSize(Elems(order), g.Keys);
    assert |g.Keys| == |g|;
  }

  lemma {:induction false} OverLimit(g: Graph, width: nat, limits: PlanLimits)
    requires Closed(g) && Layer(g, limits.maxDepth) != {}
    requires Widest(g, limits.maxDepth, width) && width <= limits.maxWidth
    ensures !WithinLimits(g, limits) && Refused(g, limits, TooDeep)
  {
    var n :| n in Layer(g, limits.maxDepth);
    var p := LongChain(g, n, limits.maxDepth);
  }

  // Which refusal a graph meets first; the cases exclude each other.
  ghost predicate Refused(g: Graph, limits: PlanLimits, e: PlanError) {
    match e
    case TooDeep =>
      && !ChainsWithin(g, limits.maxDepth) && Layer(g, limits.maxDepth) != {}
      && forall k: nat :: k < limits.maxDepth ==> |Layer(g, k)| <= limits.maxWidth
    case TooWide(width) =>
      exists k: nat :: k < limits.maxDepth && |Layer(g, k)| == width > limits.maxWidth
        && forall j: nat :: j < k ==> |Layer(g, j)| <= limits.maxWidth
    case HasCycle =>
      && !Acyclic(g) && Layer(g, limits.maxDepth) == {}
      && forall k: nat :: |Layer(g, k)| <= limits.maxWidth
    case _ => false
  }

  lemma RefusalUnique(g: Graph, limits: PlanLimits, d: PlanError, e: PlanError)
    requires Refused(g, limits, d) && Refused(g, limits, e)
    ensures d == e
  {
    if d.TooWide? {
      var k: nat :| k < limits.maxDepth && |Layer(g, k)| == d.width && forall j: nat :: j < k ==>
        |Layer(g, j)| <= limits.maxWidth;
    }
    if e.TooWide? {
      var k: nat :| k < limits.maxDepth && |Layer(g, k)| == e.width && forall j: nat :: j < k ==>
        |Layer(g, j)| <= limits.maxWidth;
    }
  }

  lemma {:induction false} TooWideFor(g: Graph, depth: nat, width: nat, limits: PlanLimits)
    requires |Layer(g, depth)| > limits.maxWidth && depth < limits.maxDepth
    requires Widest(g, depth, width) && width <= limits.maxWidth
    ensures !WithinLimits(g, limits) && Refused(g, limits, TooWide(|Layer(g, depth)|))
  {
  }

  lemma NoneYet(g: Graph)
    ensures Widest(g, 0, 0)
  {
  }

  lemma {:induction false} LevelFacts(g: Graph, indegree: map<Id, int>, ready: seq<Id>, order: seq<Id>, depth: nat,
                                      width: nat)
    requires Traversed(g, indegree, ready, order, depth) && Widest(g, depth, width) && ready != []
    ensures |Layer(g, depth)| == |ready| && Layer(g, depth) != {}
    ensures Widest(g, depth + 1, if |ready| > width then |ready| else width)
  {
    hide Done, Layer, OrderedByLevel, Increasing, Indegrees;
    assert ready[0] in Elems(ready);
  }

  lemma {:induction false} OrderFits(g: Graph, indegree: map<Id, int>, ready: seq<Id>, order: seq<Id>, depth: nat)
    requires Traversed(g, indegree, ready, order, depth)
    ensures |order| <= |g|
  {
    DoneGrows(g, 0, depth);
    SubsetSize(Elems(order), g.Keys);
    assert |g.Keys| == |g|;
  }

  lemma {:induction false} NotCyclic(g: Graph, order: seq<Id>, depth: nat, width: nat, limits: PlanLimits)
    requires Layer(g, depth) == {}
    requires Acyclic(g) ==> Describes(GraphAnalysis(order, depth, width), g)
    requires depth <= limits.maxDepth && width <= limits.maxWidth
    requires forall k: nat :: |Layer(g, k)| <= width
    ensures Acyclic(g) <==> WithinLimits(g, limits)
    ensures !Acyclic(g) ==> Refused(g, limits, HasCycle)
  {
    hide Acyclic, Layer, IsChain, OrderedByLevel, NoDup;
    StuckForGood(g, depth, limits.maxDepth);
  }

  method TopologicalAnalysis(plan: Plan, ids: seq<Id>, limits: PlanLimits)
    returns (r: Result<GraphAnalysis, PlanError>)
    requires WellFormed(plan) && ids == Ids(plan.tasks)
    ensures r.Ok? <==> WithinLimits(GraphOf(plan), limits)
    ensures r.Ok? ==> Describes(r.value, GraphOf(plan))
    ensures r.Err? ==> Refused(GraphOf(plan), limits, r.error)
  {
    hide *;
    ghost var g := GraphOf(plan);
    GraphIsClosed(plan);
    var children := BuildChildren(plan);
    var indegree, ready := Start(plan, ids);
    var order: seq<Id> := [];
    var depth: nat, width: nat := 0, 0;
    NoneYet(g);
    while ready != []
      invariant depth <= limits.maxDepth && width <= limits.maxWidth
      invariant Traversed(g, indegree, ready, order, depth) && Widest(g, depth, width)
      invariant |order| <= |g|
      decreases |g| - |order|
    {
      LevelFacts(g, indegree, ready, order, depth, width);
      if depth + 1 > limits.maxDepth {
        OverLimit(g, width, limits);
        return Err(TooDeep);
      }
      if |ready| > limits.maxWidth {
        TooWideFor(g, depth, width, limits);
        return Err(TooWide(|ready|));
      }
      depth, width := depth + 1, if |ready| > width then |ready| else width;
      indegree, order, ready := NextLevel(g, ready, children, indegree, order, depth - 1);
      OrderFits(g, indegree, ready, order, depth);
    }
    ClosingFacts(g, indegree, order, depth, width);
    NotCyclic(g, order, depth, width, limits);
    if |order| != |ids| {
      return Err(HasCycle);
    }
    r := Ok(GraphAnalysis(order, depth, width));
  }

  method AnalyzePlan(plan: Plan, limits: PlanLimits) returns (r: Result<GraphAnalysis, PlanError>)
    ensures r.Ok? <==>
      |plan.tasks| <= limits.maxNodes && NodesAccepted(plan, limits) && WithinLimits(GraphOf(plan), limits)
    ensures r.Ok? ==> Describes(r.value, GraphOf(plan))
    ensures !(|plan.tasks| <= limits.maxNodes) ==> r == Err(TooManyNodes)
    ensures |plan.tasks| <= limits.maxNodes && !NodesAccepted(plan, limits) ==>
      ValidateNodes(plan, limits).Err? && r == Err(ValidateNodes(plan, limits).error)
    ensures |plan.tasks| <= limits.maxNodes && NodesAccepted(plan, limits) && r.Err? ==>
      Refused(GraphOf(plan), limits, r.error)
  {
    if |plan.tasks| > limits.maxNodes {
      return Err(TooManyNodes);
    }
    match ValidateNodes(plan, limits)
    case Err(e) => r := Err(e);
    case Ok(ids) => r := TopologicalAnalysis(plan, ids, limits);
  }
}
