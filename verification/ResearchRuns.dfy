/** Whole runs of a research session, with the searches of parallel workers overlapping in any way
    (nvidia_smartroute/parkour/research.py). */
module ResearchRuns {
  import opened Wrappers
  import opened Ordering
  import opened Research

  // ---- What holds of every run ----

  ghost function Delivered(delivered: seq<Stored>): nat {
    if delivered == [] then 0
    else Delivered(delivered[..|delivered| - 1]) + SnippetBytes(delivered[|delivered| - 1].answer.citations)
  }

  ghost function CacheOf(delivered: seq<Stored>): map<Lookup, Answer> {
    if delivered == [] then map[]
    else CacheOf(delivered[..|delivered| - 1])[delivered[|delivered| - 1].key := delivered[|delivered| - 1].answer]
  }

  function Cost(limits: Limits, searches: nat): real {
    searches as real * limits.unitCost
  }

  // The searches add up, and the provider was not asked for more than the cost limit.
  ghost predicate Counted(s: Session, calls: nat) {
    && |s.perNode| == s.searches && s.cost == Cost(s.limits, s.searches)
    && calls <= s.searches && Cost(s.limits, calls) <= s.limits.maxCost
  }

  ghost predicate Accounted(r: Run) {
    && r.session.bytes <= r.session.limits.bytes && r.session.bytes == Delivered(r.delivered)
    && r.session.cache == CacheOf(r.delivered)
  }

  // What was spent, accounted for to the last search and byte.
  ghost predicate Bounded(r: Run) {
    Counted(r.session, r.calls) && Accounted(r)
  }

  lemma {:induction false} CostNext(limits: Limits, a: nat, b: nat)
    requires a <= b && limits.unitCost >= 0.0
    ensures Cost(limits, b + 1) == Cost(limits, b) + limits.unitCost
    ensures Cost(limits, a + 1) <= Cost(limits, b + 1) && Cost(limits, a) <= Cost(limits, b)
  {
    assert (b - a) as real * limits.unitCost >= 0.0;
  }

  lemma {:induction false} CountKeeps(s: Session, calls: nat, node: Node)
    requires Counted(s, calls) && s.limits.unitCost >= 0.0
    ensures var counted := CountSearch(s, node);
            Counted(counted, if counted.cost <= s.limits.maxCost then calls + 1 else calls)
  {
    hide Cost;
    CostNext(s.limits, calls, s.searches);
  }

  lemma {:induction false} CountedSame(a: Session, b: Session, calls: nat)
    requires a.limits == b.limits && a.searches == b.searches && a.perNode == b.perNode && a.cost == b.cost
    ensures Counted(a, calls) == Counted(b, calls)
  {
  }

  lemma AccountedSame(a: Run, b: Run)
    requires a.delivered == b.delivered && a.session.bytes == b.session.bytes
    requires a.session.cache == b.session.cache && a.session.limits == b.session.limits
    ensures Accounted(a) <==> Accounted(b)
  {
  }

  lemma DeliverAccounts(r: Run, q: Run, key: Lookup, answer: Answer)
    requires Accounted(r) && q.session.limits == r.session.limits && q.session.cache == r.session.cache[key := answer]
    requires q.session.bytes == r.session.bytes + SnippetBytes(answer.citations) <= r.session.limits.bytes
    requires q.delivered == r.delivered + [Stored(key, answer)]
    ensures Accounted(q)
  {
    hide SnippetBytes;
    assert (r.delivered + [Stored(key, answer)])[..|r.delivered|] == r.delivered;
  }

  lemma NoSnippets()
    ensures SnippetBytes([]) == 0
  {
  }

  lemma {:induction false} FinishKeeps(lib: Library, r: Run, call: nat, reply: Option<seq<RawItem>>)
    requires Bounded(r)
    ensures Bounded(Step(lib, r, Finish(call, reply)))
  {
    hide Shape, SnippetBytes, Counted, Accounted;
    var q := Step(lib, r, Finish(call, reply));
    CountedSame(r.session, q.session, r.calls);
    if call in r.pending && reply.Some? {
      NoSnippets();
      ShapeKeeps(lib, r.session.limits, reply.value, Shaped([], r.session.bytes, false), r.session.bytes) by {
        BytesWithin(r);
      }
      DeliverAccounts(r, q, r.pending[call], Deliver(lib, r.session, r.pending[call], reply.value).0);
    } else {
      AccountedSame(r, q);
    }
  }

  lemma BytesWithin(r: Run)
    requires Accounted(r)
    ensures r.session.bytes <= r.session.limits.bytes
  {
  }

  lemma StepBounded(lib: Library, r: Run, e: Event)
    requires Bounded(r) && r.session.limits.unitCost >= 0.0
    ensures Bounded(Step(lib, r, e)) && Step(lib, r, e).session.limits == r.session.limits
  {
    hide Shape, Counted, Accounted;
    match e
    case Check(_, _, _, _) => AccountedSame(r, Step(lib, r, e));
    case Count(call) =>
      AccountedSame(r, Step(lib, r, e));
      if call in r.checked { CountKeeps(r.session, r.calls, r.checked[call].node); }
    case Finish(call, reply) => FinishKeeps(lib, r, call, reply);
    case Abandon(_) => AccountedSame(r, Step(lib, r, e));
  }

  // In every run, however searches overlap: the counts add up, the cost is the number of searches
  // times the unit cost, the calls made to the provider stay within the cost limit, and the bytes
  // retained stay within theirs and are those of the answers delivered.
  lemma {:induction false} BudgetsHold(lib: Library, limits: Limits, started: real, events: seq<Event>)
    requires limits.unitCost >= 0.0 && limits.maxCost >= 0.0
    ensures var r := Play(lib, Fresh(limits, started), events);
            Bounded(r) && r.session.limits == limits
  {
    if events == [] {
    } else {
      hide Bounded, Step, Fresh;
      var front, e := events[..|events| - 1], events[|events| - 1];
      BudgetsHold(lib, limits, started, front);
      StepBounded(lib, Play(lib, Fresh(limits, started), front), e);
    }
  }

  // ---- The limits on searches ----

  // Never more than K searches are between their checks and their counting.
  ghost predicate GapWithin(lib: Library, start: Run, events: seq<Event>, K: nat) {
    |Play(lib, start, events).checked| <= K && (events != [] ==> GapWithin(lib, start, events[..|events| - 1], K))
  }

  ghost function WaitingFor(checked: map<nat, Waiting>, n: Node): set<nat> {
    set c | c in checked && checked[c].node == n
  }

  // The same for the searches of one node.
  ghost predicate NodeGapWithin(lib: Library, start: Run, events: seq<Event>, n: Node, K: nat) {
    && |WaitingFor(Play(lib, start, events).checked, n)| <= K
    && (events != [] ==> NodeGapWithin(lib, start, events[..|events| - 1], n, K))
  }

  lemma {:induction false} GapCoversNode(lib: Library, start: Run, events: seq<Event>, n: Node, K: nat)
    requires GapWithin(lib, start, events, K)
    ensures NodeGapWithin(lib, start, events, n, K)
  {
    hide Play;
    var checked := Play(lib, start, events).checked;
    SubsetSize(WaitingFor(checked, n), checked.Keys);
    assert |checked.Keys| == |checked|;
    if events != [] { GapCoversNode(lib, start, events[..|events| - 1], n, K); }
  }

  lemma StepLimits(lib: Library, r: Run, e: Event)
    ensures var q := Step(lib, r, e);
            && q.session.limits == r.session.limits
            && (q.session.searches + |q.checked| <= r.session.searches + |r.checked|
                || (q.session.searches == r.session.searches < r.session.limits.perRun &&
                  |q.checked| == |r.checked| + 1))
  {
    hide Deliver, Look;
    MapLess(r.checked, e.call);
    if e.Check? && e.call !in r.checked { MapMore(r.checked, e.call, Waiting(e.key, e.node)); }
    StepLooks(r.session, e);
    if e.Finish? && e.call in r.pending && e.reply.Some? {
      DeliverKeepsCounts(lib, r.session, r.pending[e.call], e.reply.value);
    }
  }

  lemma DeliverKeepsCounts(lib: Library, s: Session, k: Lookup, raw: seq<RawItem>)
    ensures var after := Deliver(lib, s, k, raw).1;
            after.searches == s.searches && after.limits == s.limits && after.perNode == s.perNode
  {
    hide Shape;
  }

  lemma StepLooks(s: Session, e: Event)
    ensures e.Check? && Look(s, e.key, e.node, e.now) == Passed ==> s.searches < s.limits.perRun
    ensures e.Check? && Look(s, e.key, e.node, e.now) == Passed ==> s.perNode[e.node] < s.limits.perNode
  {
  }

  lemma {:induction false} MapLess(m: map<nat, Waiting>, c: nat)
    ensures |m - {c}| == |m| - if c in m then 1 else 0
  {
    assert (m - {c}).Keys == m.Keys - {c} && |m.Keys| == |m| && |(m - {c}).Keys| == |m - {c}|;
  }

  lemma {:induction false} MapMore(m: map<nat, Waiting>, c: nat, w: Waiting)
    requires c !in m
    ensures |m[c := w]| == |m| + 1
  {
    assert m[c := w].Keys == m.Keys + {c} && |m.Keys| == |m| && |m[c := w].Keys| == |m[c := w]|;
  }

  // With at most K searches between check and count, the run limit is passed by at most K - 1.
  lemma {:induction false} RunLimitPassed(lib: Library, limits: Limits, started: real, events: seq<Event>, K: nat)
    requires K >= 1 && GapWithin(lib, Fresh(limits, started), events, K)
    ensures var r := Play(lib, Fresh(limits, started), events);
            r.session.limits == limits && r.session.searches + |r.checked| <= limits.perRun + K - 1
  {
    if events != [] {
      var front, e := events[..|events| - 1], events[|events| - 1];
      RunLimitPassed(lib, limits, started, front, K);
      StepLimits(lib, Play(lib, Fresh(limits, started), front), e);
      hide Step;
    }
  }

  lemma {:induction false} WaitingLess(checked: map<nat, Waiting>, c: nat, n: Node)
    ensures |WaitingFor(checked - {c}, n)| <= |WaitingFor(checked, n)|
    ensures c in checked && checked[c].node == n ==> |WaitingFor(checked - {c}, n)| == |WaitingFor(checked, n)| - 1
  {
    var before, after := WaitingFor(checked, n), WaitingFor(checked - {c}, n);
    assert after == before - {c};
    if c in checked && checked[c].node == n { assert c in before; }
  }

  lemma {:induction false} WaitingMore(checked: map<nat, Waiting>, c: nat, w: Waiting, n: Node)
    requires c !in checked
    ensures |WaitingFor(checked[c := w], n)| == |WaitingFor(checked, n)| + if w.node == n then 1 else 0
  {
    var before, after := WaitingFor(checked, n), WaitingFor(checked[c := w], n);
    assert c !in before;
    if w.node == n { assert after == before + {c}; } else { assert after == before; }
  }

  lemma StepNodeLimits(lib: Library, r: Run, e: Event, n: Node)
    ensures var q := Step(lib, r, e);
            var before, after := |WaitingFor(r.checked, n)|, |WaitingFor(q.checked, n)|;
            && q.session.limits == r.session.limits
            && (q.session.perNode[n] + after <= r.session.perNode[n] + before
                || (q.session.perNode[n] == r.session.perNode[n] < r.session.limits.perNode && after == before + 1))
  {
    hide Shape, WaitingFor;
    WaitingLess(r.checked, e.call, n);
    if e.Check? && e.call !in r.checked { WaitingMore(r.checked, e.call, Waiting(e.key, e.node), n); }
  }

  // Likewise for the limit of each node.
  lemma {:induction false} NodeLimitPassed(lib: Library, limits: Limits, started: real, events: seq<Event>, n: Node,
                                           K: nat)
    requires K >= 1 && NodeGapWithin(lib, Fresh(limits, started), events, n, K)
    ensures var r := Play(lib, Fresh(limits, started), events);
            r.session.limits == limits && r.session.perNode[n] + |WaitingFor(r.checked, n)| <= limits.perNode + K - 1
  {
    if events == [] {
      assert WaitingFor(map[], n) == {};
    } else {
      var front, e := events[..|events| - 1], events[|events| - 1];
      NodeLimitPassed(lib, limits, started, front, n, K);
      StepNodeLimits(lib, Play(lib, Fresh(limits, started), front), e, n);
      hide Step;
    }
  }

  ghost predicate WithinLimits(s: Session) {
    s.searches <= s.limits.perRun && forall n :: s.perNode[n] <= s.limits.perNode
  }

  lemma LimitsHold(lib: Library, limits: Limits, started: real, events: seq<Event>)
    requires GapWithin(lib, Fresh(limits, started), events, 1)
    ensures WithinLimits(Play(lib, Fresh(limits, started), events).session)
  {
    hide Play, GapWithin, NodeGapWithin, Fresh;
    RunLimitPassed(lib, limits, started, events, 1);
    forall n ensures Play(lib, Fresh(limits, started), events).session.perNode[n] <= limits.perNode {
      GapCoversNode(lib, Fresh(limits, started), events, n, 1);
      NodeLimitPassed(lib, limits, started, events, n, 1);
    }
  }

  // ---- Runs that pass the limits ----

  // n searches for the same lookup, each counted before the next is checked; none is answered.
  ghost function Burst(k: Lookup, nodes: nat -> Node, now: real, n: nat): seq<Event> {
    if n == 0 then [] else Burst(k, nodes, now, n - 1) + [Check(n - 1, k, nodes(n - 1), now), Count(n - 1)]
  }

  // Then j more that are checked before any of them is counted ...
  ghost function Checks(k: Lookup, nodes: nat -> Node, now: real, n: nat, j: nat): seq<Event> {
    if j == 0 then Burst(k, nodes, now, n)
    else Checks(k, nodes, now, n, j - 1) + [Check(n + j - 1, k, nodes(n + j - 1), now)]
  }

  // ... and c of those counted.
  ghost function Surge(k: Lookup, nodes: nat -> Node, now: real, n: nat, j: nat, c: nat): seq<Event> {
    if c == 0 then Checks(k, nodes, now, n, j) else Surge(k, nodes, now, n, j, c - 1) + [Count(n + c - 1)]
  }

  ghost function Tally(nodes: nat -> Node, n: nat): multiset<Node> {
    if n == 0 then multiset{} else Tally(nodes, n - 1) + multiset{nodes(n - 1)}
  }

  // Every one of the first n searches finds room under its node's limit.
  ghost predicate Roomy(limits: Limits, nodes: nat -> Node, n: nat) {
    forall i: nat :: i < n ==> Tally(nodes, i)[nodes(i)] < limits.perNode
  }

  // After n of them, so does each of those up to b.
  ghost predicate RoomAfter(limits: Limits, nodes: nat -> Node, n: nat, b: nat) {
    forall i: nat :: n <= i < b ==> Tally(nodes, n)[nodes(i)] < limits.perNode
  }

  ghost predicate Ready(limits: Limits, k: Lookup) {
    ValidQuery(limits, k) && limits.timeout >= 0.0 && limits.unitCost >= 0.0
  }

  // The searches from a to b, waiting to be counted.
  ghost function Queue(k: Lookup, nodes: nat -> Node, a: nat, b: nat): map<nat, Waiting> {
    map i: nat | a <= i < b :: Waiting(k, nodes(i))
  }

  ghost function Range(a: nat, b: nat): set<nat> {
    if a >= b then {} else Range(a, b - 1) + {b - 1}
  }

  lemma {:induction false} RangeFacts(a: nat, b: nat)
    requires a <= b
    ensures forall i :: i in Range(a, b) <==> a <= i < b
    ensures |Range(a, b)| == b - a
  {
    if a < b { RangeFacts(a, b - 1); }
  }

  lemma {:induction false} QueueSize(k: Lookup, nodes: nat -> Node, a: nat, b: nat)
    requires a <= b
    ensures |Queue(k, nodes, a, b)| == b - a
  {
    RangeFacts(a, b);
    assert Queue(k, nodes, a, b).Keys == Range(a, b);
    assert |Queue(k, nodes, a, b).Keys| == |Queue(k, nodes, a, b)|;
  }

  // The state after n counted searches with `checked` waiting, all of them at the provider unless
  // the cost limit stopped them.
  ghost predicate Busy(r: Run, limits: Limits, started: real, k: Lookup, nodes: nat -> Node, n: nat,
                       checked: map<nat, Waiting>) {
    && r.session == Session(limits, started, n, Tally(nodes, n), 0, Cost(limits, n), map[])
    && r.checked == checked && r.delivered == []
    && (forall c :: c in r.pending ==> c < n && r.pending[c] == k)
    && (Cost(limits, n) <= limits.maxCost ==> r.calls == n && forall c: nat :: c < n ==> c in r.pending)
  }

  lemma {:induction false} CheckStep(lib: Library, r: Run, limits: Limits, started: real, k: Lookup, nodes: nat -> Node,
                                     n: nat, b: nat)
    requires Ready(limits, k) && n <= b && Busy(r, limits, started, k, nodes, n, Queue(k, nodes, n, b))
    requires n < limits.perRun && Tally(nodes, n)[nodes(b)] < limits.perNode
    ensures Busy(Step(lib, r, Check(b, k, nodes(b), started)), limits, started, k, nodes, n, Queue(k, nodes, n, b + 1))
  {
    hide Tally, Cost;
    assert Queue(k, nodes, n, b)[b := Waiting(k, nodes(b))] == Queue(k, nodes, n, b + 1);
  }

  lemma {:induction false} CountStep(lib: Library, r: Run, limits: Limits, started: real, k: Lookup, nodes: nat -> Node,
                                     n: nat, b: nat)
    requires Ready(limits, k) && n < b && Busy(r, limits, started, k, nodes, n, Queue(k, nodes, n, b))
    ensures Busy(Step(lib, r, Count(n)), limits, started, k, nodes, n + 1, Queue(k, nodes, n + 1, b))
  {
    hide Cost;
    CostNext(limits, n, n);
    assert Queue(k, nodes, n, b) - {n} == Queue(k, nodes, n + 1, b);
  }

  lemma {:induction false} GapOne(lib: Library, start: Run, events: seq<Event>, e: Event, K: nat)
    requires GapWithin(lib, start, events, K) && |Step(lib, Play(lib, start, events), e).checked| <= K
    ensures GapWithin(lib, start, events + [e], K)
  {
    hide Step;
    PlayOne(lib, start, events, e);
    assert (events + [e])[..|events|] == events;
  }

  lemma {:induction false} BurstBusy(lib: Library, limits: Limits, started: real, k: Lookup, nodes: nat -> Node,
                                     n: nat, K: nat)
    requires Ready(limits, k) && limits.maxCost >= 0.0 && n <= limits.perRun && Roomy(limits, nodes, n) && K >= 1
    ensures Busy(Play(lib, Fresh(limits, started), Burst(k, nodes, started, n)), limits, started, k, nodes, n,
                 Queue(k, nodes, n, n))
    ensures GapWithin(lib, Fresh(limits, started), Burst(k, nodes, started, n), K)
  {
    hide Busy, Step, Ready, Queue, GapWithin, Play, Fresh, Tally, Roomy;
    if n == 0 {
      NothingBusy(lib, limits, started, k, nodes, K);
    } else {
      StillRoomy(limits, nodes, n - 1);
      BurstBusy(lib, limits, started, k, nodes, n - 1, K);
      BurstNext(lib, Fresh(limits, started), Burst(k, nodes, started, n - 1), limits, started, k, nodes, n - 1, K);
    }
  }

  lemma {:induction false} NothingBusy(lib: Library, limits: Limits, started: real, k: Lookup, nodes: nat -> Node,
                                       K: nat)
    ensures Busy(Play(lib, Fresh(limits, started), []), limits, started, k, nodes, 0, Queue(k, nodes, 0, 0))
    ensures GapWithin(lib, Fresh(limits, started), [], K)
  {
    assert Queue(k, nodes, 0, 0) == map[];
  }

  lemma {:induction false} StillRoomy(limits: Limits, nodes: nat -> Node, n: nat)
    requires Roomy(limits, nodes, n + 1)
    ensures Roomy(limits, nodes, n) && Tally(nodes, n)[nodes(n)] < limits.perNode
  {
    hide Tally;
  }

  lemma {:induction false} BurstNext(lib: Library, start: Run, front: seq<Event>, limits: Limits, started: real,
                                     k: Lookup,
                                     nodes: nat -> Node, m: nat, K: nat)
    requires Ready(limits, k) && m < limits.perRun && Tally(nodes, m)[nodes(m)] < limits.perNode && K >= 1
    requires Busy(Play(lib, start, front), limits, started, k, nodes, m, Queue(k, nodes, m, m)) &&
      GapWithin(lib, start, front, K)
    ensures var events := front + [Check(m, k, nodes(m), started), Count(m)];
            && Busy(Play(lib, start, events), limits, started, k, nodes, m + 1, Queue(k, nodes, m + 1, m + 1))
            && GapWithin(lib, start, events, K)
  {
    hide *;
    var check, count := Check(m, k, nodes(m), started), Count(m);
    CheckStep(lib, Play(lib, start, front), limits, started, k, nodes, m, m);
    PlayOne(lib, start, front, check);
    BusyGap(Play(lib, start, front + [check]), limits, started, k, nodes, m, m + 1);
    GapOne(lib, start, front, check, K);
    CountStep(lib, Play(lib, start, front + [check]), limits, started, k, nodes, m, m + 1);
    PlayOne(lib, start, front + [check], count);
    BusyGap(Play(lib, start, front + [check] + [count]), limits, started, k, nodes, m + 1, m + 1);
    GapOne(lib, start, front + [check], count, K);
    assert front + [check] + [count] == front + [check, count];
  }

  lemma {:induction false} BusyGap(r: Run, limits: Limits, started: real, k: Lookup, nodes: nat -> Node, n: nat, b: nat)
    requires n <= b && Busy(r, limits, started, k, nodes, n, Queue(k, nodes, n, b))
    ensures |r.checked| == b - n && r.session.searches == n && r.session.perNode == Tally(nodes, n)
  {
    hide Tally, Cost;
    QueueSize(k, nodes, n, b);
  }

  lemma {:induction false} ChecksBusy(lib: Library, limits: Limits, started: real, k: Lookup, nodes: nat -> Node,
                                      n: nat, j: nat, K: nat)
    requires Ready(limits, k) && limits.maxCost >= 0.0 && n < limits.perRun && Roomy(limits, nodes, n) && 1 <= K &&
      j <= K
    requires RoomAfter(limits, nodes, n, n + j)
    ensures Busy(Play(lib, Fresh(limits, started), Checks(k, nodes, started, n, j)), limits, started, k, nodes, n,
                 Queue(k, nodes, n, n + j))
    ensures GapWithin(lib, Fresh(limits, started), Checks(k, nodes, started, n, j), K)
  {
    hide Busy, Step, Ready, Queue, GapWithin, Play, Fresh, Burst, Roomy;
    var start := Fresh(limits, started);
    if j == 0 {
      BurstBusy(lib, limits, started, k, nodes, n, K);
    } else {
      var b := n + j - 1;
      var front, check := Checks(k, nodes, started, n, j - 1), Check(b, k, nodes(b), started);
      ChecksBusy(lib, limits, started, k, nodes, n, j - 1, K);
      CheckStep(lib, Play(lib, start, front), limits, started, k, nodes, n, b);
      PlayOne(lib, start, front, check);
      BusyGap(Play(lib, start, front + [check]), limits, started, k, nodes, n, b + 1);
      GapOne(lib, start, front, check, K);
    }
  }

  lemma {:induction false} SurgeBusy(lib: Library, limits: Limits, started: real, k: Lookup, nodes: nat -> Node,
                                     n: nat, j: nat, c: nat)
    requires Ready(limits, k) && limits.maxCost >= 0.0 && n < limits.perRun && Roomy(limits, nodes, n) && 1 <= j &&
      c <= j
    requires RoomAfter(limits, nodes, n, n + j)
    ensures Busy(Play(lib, Fresh(limits, started), Surge(k, nodes, started, n, j, c)), limits, started, k, nodes, n + c,
                 Queue(k, nodes, n + c, n + j))
    ensures GapWithin(lib, Fresh(limits, started), Surge(k, nodes, started, n, j, c), j)
  {
    hide Busy, Step, Ready, Queue, GapWithin, Play, Fresh, Checks, Roomy;
    var start := Fresh(limits, started);
    if c == 0 {
      ChecksBusy(lib, limits, started, k, nodes, n, j, j);
    } else {
      var m := n + c - 1;
      var front := Surge(k, nodes, started, n, j, c - 1);
      SurgeBusy(lib, limits, started, k, nodes, n, j, c - 1);
      CountStep(lib, Play(lib, start, front), limits, started, k, nodes, m, n + j);
      PlayOne(lib, start, front, Count(m));
      BusyGap(Play(lib, start, front + [Count(m)]), limits, started, k, nodes, m + 1, n + j);
      GapOne(lib, start, front, Count(m), j);
    }
  }

  // Every search by a node of its own, or all by the same.
  ghost function Different(): nat -> Node {
    (i: nat) => Node(seq(i, _ => 'n'))
  }

  ghost function Only(node: Node): nat -> Node {
    _ => node
  }

  lemma {:induction false} DifferentTally(n: nat, i: nat)
    requires n <= i
    ensures Tally(Different(), n)[Different()(i)] == 0
  {
    if n > 0 {
      DifferentTally(n - 1, i);
      assert |Different()(n - 1).id| != |Different()(i).id|;
    }
  }

  lemma {:induction false} OnlyTally(node: Node, n: nat)
    ensures Tally(Only(node), n)[node] == n
  {
    if n > 0 { OnlyTally(node, n - 1); }
  }

  lemma {:induction false} DifferentRoom(limits: Limits, n: nat, b: nat)
    requires limits.perNode >= 1
    ensures Roomy(limits, Different(), n) && RoomAfter(limits, Different(), n, b)
  {
    hide Tally, Different;
    forall i: nat ensures Tally(Different(), i)[Different()(i)] == 0 {
      DifferentTally(i, i);
    }
    forall i: nat | n <= i ensures Tally(Different(), n)[Different()(i)] == 0 {
      DifferentTally(n, i);
    }
  }

  lemma {:induction false} OnlyRoom(limits: Limits, node: Node, n: nat, b: nat)
    requires n < limits.perNode
    ensures Roomy(limits, Only(node), n) && RoomAfter(limits, Only(node), n, b)
  {
    hide Tally;
    forall i: nat ensures Tally(Only(node), i)[node] == i {
      OnlyTally(node, i);
    }
  }

  // The bound is reached: K searches of different nodes, checked together, pass the run limit by K - 1.
  lemma {:induction false} RunLimitReached(lib: Library, limits: Limits, started: real, k: Lookup, K: nat)
    returns (events: seq<Event>)
    requires Ready(limits, k) && limits.maxCost >= 0.0 && limits.perRun >= 1 && limits.perNode >= 1 && K >= 1
    ensures GapWithin(lib, Fresh(limits, started), events, K)
    ensures Play(lib, Fresh(limits, started), events).session.searches == limits.perRun + K - 1
  {
    hide *;
    var n := limits.perRun - 1;
    DifferentRoom(limits, n, n + K);
    events := Surge(k, Different(), started, n, K, K);
    SurgeBusy(lib, limits, started, k, Different(), n, K, K);
    BusyGap(Play(lib, Fresh(limits, started), events), limits, started, k, Different(), n + K, n + K);
  }

  // And K searches of one node pass the node limit by K - 1, unless the run limit is below it.
  lemma {:induction false} NodeLimitReached(lib: Library, limits: Limits, started: real, k: Lookup, node: Node, K: nat)
    returns (events: seq<Event>)
    requires Ready(limits, k) && limits.maxCost >= 0.0 && 1 <= limits.perNode <= limits.perRun && K >= 1
    ensures GapWithin(lib, Fresh(limits, started), events, K)
    ensures Play(lib, Fresh(limits, started), events).session.perNode[node] == limits.perNode + K - 1
  {
    hide *;
    var n := limits.perNode - 1;
    OnlyRoom(limits, node, n, n + K);
    OnlyTally(node, n + K);
    events := Surge(k, Only(node), started, n, K, K);
    SurgeBusy(lib, limits, started, k, Only(node), n, K, K);
    BusyGap(Play(lib, Fresh(limits, started), events), limits, started, k, Only(node), n + K, n + K);
  }

  // The limits on searches hold in every run exactly when no two searches are ever between their
  // checks and their counting at once.
  lemma {:induction false} LimitsHoldIff(lib: Library, limits: Limits, started: real, k: Lookup, K: nat)
    requires Ready(limits, k) && limits.maxCost >= 0.0 && limits.perRun >= 1 && limits.perNode >= 1 && K >= 1
    ensures (forall events :: GapWithin(lib, Fresh(limits, started), events, K) ==>
               WithinLimits(Play(lib, Fresh(limits, started), events).session)) <==> K == 1
  {
    hide Play, GapWithin, Fresh, Ready;
    if K == 1 {
      forall events | GapWithin(lib, Fresh(limits, started), events, K)
        ensures WithinLimits(Play(lib, Fresh(limits, started), events).session)
      {
        LimitsHold(lib, limits, started, events);
      }
    } else {
      var events := RunLimitReached(lib, limits, started, k, K);
      RunLimits(lib, limits, started, events);
    }
  }

  lemma {:induction false} RunLimits(lib: Library, limits: Limits, started: real, events: seq<Event>)
    ensures Play(lib, Fresh(limits, started), events).session.limits == limits
  {
    if events != [] {
      RunLimits(lib, limits, started, events[..|events| - 1]);
      StepLimits(lib, Play(lib, Fresh(limits, started), events[..|events| - 1]), events[|events| - 1]);
      hide Step;
    }
  }

  // ---- Deduplication ----

  ghost function Keys(delivered: seq<Stored>): (keys: seq<Lookup>)
    ensures |keys| == |delivered|
  {
    seq(|delivered|, i requires 0 <= i < |delivered| => delivered[i].key)
  }

  lemma {:induction false} CacheKeys(delivered: seq<Stored>)
    ensures CacheOf(delivered).Keys == Elems(Keys(delivered))
  {
    if delivered != [] {
      var front := delivered[..|delivered| - 1];
      CacheKeys(front);
      assert Keys(delivered) == Keys(front) + [delivered[|delivered| - 1].key];
    }
  }

  lemma BoundedCache(r: Run)
    requires Bounded(r)
    ensures r.session.cache.Keys == Elems(Keys(r.delivered))
  {
    CacheKeys(r.delivered);
  }

  // In every run a search is answered from the cache exactly when its lookup has been delivered
  // before; otherwise it goes on exactly when the limits leave room, whatever is in flight.
  lemma DeduplicatedIff(lib: Library, limits: Limits, started: real, events: seq<Event>,
                                           k: Lookup, node: Node, now: real)
    requires limits.unitCost >= 0.0 && limits.maxCost >= 0.0 && ValidQuery(limits, k)
    ensures var r := Play(lib, Fresh(limits, started), events);
            && (Look(r.session, k, node, now).Cached? <==> k in Keys(r.delivered))
            && (Look(r.session, k, node, now) == Passed <==>
                 && k !in Keys(r.delivered) && now - r.session.started <= limits.timeout
                 && r.session.searches < limits.perRun && r.session.perNode[node] < limits.perNode)
  {
    hide Play, Bounded, Fresh, Keys;
    BudgetsHold(lib, limits, started, events);
    BoundedCache(Play(lib, Fresh(limits, started), events));
  }

  // Identical searches in flight are not deduplicated: as many of them as the limits on searches
  // and cost allow are at the provider at once, even if each is counted before the next is checked.
  lemma {:induction false} Stampede(lib: Library, limits: Limits, started: real, k: Lookup, n: nat)
    returns (events: seq<Event>)
    requires Ready(limits, k) && limits.maxCost >= 0.0 && limits.perNode >= 1
    requires n <= limits.perRun && Cost(limits, n) <= limits.maxCost
    ensures GapWithin(lib, Fresh(limits, started), events, 1)
    ensures var r := Play(lib, Fresh(limits, started), events);
            r.calls == n && forall c: nat :: (c in r.pending <==> c < n) && (c in r.pending ==> r.pending[c] == k)
  {
    hide *;
    DifferentRoom(limits, n, n);
    events := Burst(k, Different(), started, n);
    BurstBusy(lib, limits, started, k, Different(), n, 1);
    var r := Play(lib, Fresh(limits, started), events);
    BusyCalls(r, limits, started, k, Different(), n, Queue(k, Different(), n, n));
  }

  lemma {:induction false} BusyCalls(r: Run, limits: Limits, started: real, k: Lookup, nodes: nat -> Node, n: nat,
                                     checked: map<nat, Waiting>)
    requires Busy(r, limits, started, k, nodes, n, checked) && Cost(limits, n) <= limits.maxCost
    ensures r.calls == n && forall c: nat :: (c in r.pending <==> c < n) && (c in r.pending ==> r.pending[c] == k)
  {
    hide Tally, Cost;
  }

  // ---- Serial runs ----

  datatype Call = Call(key: Lookup, node: Node, now: real, reply: Option<seq<RawItem>>)

  // A run of searches that do not overlap.
  ghost function Serial(calls: seq<Call>): seq<Event> {
    if calls == [] then []
    else Serial(calls[..|calls| - 1]) + Steps(calls[|calls| - 1])
  }

  ghost function Steps(c: Call): seq<Event> {
    [Check(0, c.key, c.node, c.now)] + [Count(0)] + [Finish(0, c.reply)]
  }

  ghost function AfterCall(lib: Library, r: Run, c: Call): Run {
    Step(lib, Step(lib, Step(lib, r, Check(0, c.key, c.node, c.now)), Count(0)), Finish(0, c.reply))
  }

  // The three steps of a search leave nothing suspended, and deliver at most its own lookup, and
  // only if it was not in the cache.
  lemma SerialStep(lib: Library, r: Run, c: Call)
    requires r.pending == map[] && r.checked == map[]
    ensures var q := AfterCall(lib, r, c);
            && q.pending == map[] && q.checked == map[]
            && (q.delivered == r.delivered || (c.key !in r.session.cache && |q.delivered| == |r.delivered| + 1
                 && q.delivered[..|r.delivered|] == r.delivered && q.delivered[|r.delivered|].key == c.key))
    ensures |Step(lib, r, Check(0, c.key, c.node, c.now)).checked| <= 1
    ensures Step(lib, Step(lib, r, Check(0, c.key, c.node, c.now)), Count(0)).checked == map[]
  {
    hide Shape;
    var w := Waiting(c.key, c.node);
    assert map[0 := w].Keys == {0} && |map[0 := w].Keys| == |map[0 := w]|;
  }

  lemma SerialPlays(lib: Library, start: Run, events: seq<Event>, c: Call)
    requires Play(lib, start, events).pending == map[] && Play(lib, start, events).checked == map[]
    requires GapWithin(lib, start, events, 1)
    ensures Play(lib, start, events + Steps(c)) == AfterCall(lib, Play(lib, start, events), c)
    ensures GapWithin(lib, start, events + Steps(c), 1)
  {
    hide Step, GapWithin, Play;
    var check, finish := Check(0, c.key, c.node, c.now), Finish(0, c.reply);
    SerialStep(lib, Play(lib, start, events), c);
    PlayOne(lib, start, events, check);
    GapOne(lib, start, events, check, 1);
    PlayOne(lib, start, events + [check], Count(0));
    GapOne(lib, start, events + [check], Count(0), 1);
    PlayOne(lib, start, events + [check] + [Count(0)], finish);
    GapOne(lib, start, events + [check] + [Count(0)], finish, 1);
    assert events + Steps(c) == events + [check] + [Count(0)] + [finish];
  }

  lemma {:induction false} CacheHolds(delivered: seq<Stored>)
    requires NoDup(Keys(delivered))
    ensures forall i :: 0 <= i < |delivered| ==>
      delivered[i].key in CacheOf(delivered) && CacheOf(delivered)[delivered[i].key] == delivered[i].answer
  {
    if delivered != [] {
      var n := |delivered| - 1;
      var front, keys := delivered[..n], Keys(delivered);
      assert keys[..n] == Keys(front);
      NoDupPrefix(keys, n);
      NoDupIndices(keys);
      hide NoDup;
      CacheHolds(front);
      forall i | 0 <= i < n ensures delivered[i].key != delivered[n].key {
        assert keys[i] != keys[n];
      }
    }
  }

  lemma KeysGrow(before: seq<Stored>, after: seq<Stored>)
    requires NoDup(Keys(before)) && |after| == |before| + 1 && after[..|before|] == before
    requires after[|before|].key !in Elems(Keys(before))
    ensures NoDup(Keys(after))
  {
    assert Keys(after) == Keys(before) + [after[|before|].key];
    AppendDistinct(Keys(before), after[|before|].key);
  }

  lemma NothingDelivered()
    ensures NoDup(Keys([]))
  {
  }

  lemma {:induction false} SerialKeys(lib: Library, limits: Limits, started: real, calls: seq<Call>)
    requires limits.unitCost >= 0.0 && limits.maxCost >= 0.0
    ensures var r := Play(lib, Fresh(limits, started), Serial(calls));
            r.pending == map[] && r.checked == map[] && NoDup(Keys(r.delivered))
    ensures GapWithin(lib, Fresh(limits, started), Serial(calls), 1)
  {
    hide Bounded, NoDup, Step, Elems, CacheOf, AfterCall, Steps;
    var start := Fresh(limits, started);
    if calls == [] {
      NothingDelivered();
    } else {
      hide Play, GapWithin;
      var front, c := calls[..|calls| - 1], calls[|calls| - 1];
      SerialKeys(lib, limits, started, front);
      var r := Play(lib, start, Serial(front));
      BudgetsHold(lib, limits, started, Serial(front));
      BoundedCache(r);
      SerialPlays(lib, start, Serial(front), c);
      SerialStep(lib, r, c);
      if AfterCall(lib, r, c).delivered != r.delivered { KeysGrow(r.delivered, AfterCall(lib, r, c).delivered); }
    }
  }

  // Without overlap the limits on searches hold, no lookup is delivered twice, and the bytes
  // retained are exactly those of the answers in the cache, each counted once.
  lemma SerialCacheBytes(lib: Library, limits: Limits, started: real, calls: seq<Call>)
    requires limits.unitCost >= 0.0 && limits.maxCost >= 0.0
    ensures var r := Play(lib, Fresh(limits, started), Serial(calls));
            && Bounded(r) && WithinLimits(r.session) && r.pending == map[]
            && NoDup(Keys(r.delivered)) && Elems(Keys(r.delivered)) == r.session.cache.Keys
            && forall i :: 0 <= i < |r.delivered| ==>
                 r.delivered[i].key in r.session.cache && r.session.cache[r.delivered[i].key] == r.delivered[i].answer
  {
    hide Play, Serial, NoDup, Elems, CacheOf, Keys, GapWithin, WithinLimits;
    SerialKeys(lib, limits, started, calls);
    LimitsHold(lib, limits, started, Serial(calls));
    BudgetsHold(lib, limits, started, Serial(calls));
    var r := Play(lib, Fresh(limits, started), Serial(calls));
    BoundedCache(r);
    CacheHolds(r.delivered);
  }
}
