/** Completion with model fallback under the circuit breaker (nvidia_smartroute/gateway/completion.py). */
module Completion {
  import opened Wrappers
  import opened Ordering
  import opened Circuits

  // How one upstream call ends; Transport stands for an exception without a response.
  datatype CallOutcome = Served(data: string) | PoolExhausted | HttpError(code: int) | Transport

  datatype Settings = Settings(enableFallback: bool, maxFallbacks: nat, breakerEnabled: bool)

  datatype Completed = Completed(data: string, model: ModelId, fallbackUsed: bool)

  // The upstream, the clock and the other requests: the outcome of the i-th call, the time of the
  // i-th breaker access, and what others do to the shared breaker during the i-th call.
  datatype World = World(call: (nat, ModelId) -> CallOutcome, clock: nat -> real, others: nat -> seq<Event>)

  predicate ShouldFallback(o: CallOutcome)
    requires !o.Served? && !o.PoolExhausted?
  {
    match o
    case HttpError(code) => code == 404 || code >= 500
    case Transport => true
  }

  // A failure for which the next model is tried and which counts against this one.
  predicate Hard(o: CallOutcome) {
    !o.Served? && !o.PoolExhausted? && ShouldFallback(o)
  }

  function AddDistinct(candidates: seq<ModelId>, ranked: seq<ModelId>): seq<ModelId> {
    if ranked == [] then candidates
    else
      var front, m := AddDistinct(candidates, ranked[..|ranked| - 1]), ranked[|ranked| - 1];
      if m in front then front else front + [m]
  }

  function Candidates(s: Settings, primary: ModelId, ranked: seq<ModelId>): seq<ModelId> {
    if !s.enableFallback then [primary]
    else
      var all := AddDistinct([primary], ranked);
      if |all| > 1 + s.maxFallbacks then all[..1 + s.maxFallbacks] else all
  }

  // The models the breaker lets through, and the breaker after asking it about each.
  function Healthy(b: Breaker, candidates: seq<ModelId>, clock: nat -> real): (seq<ModelId>, Breaker) {
    if candidates == [] then ([], b)
    else
      var (front, after) := Healthy(b, candidates[..|candidates| - 1], clock);
      var m := candidates[|candidates| - 1];
      var (ok, last) := Allow(after, m, clock(|candidates| - 1));
      (if ok then front + [m] else front, last)
  }

  function Chosen(s: Settings, b: Breaker, candidates: seq<ModelId>, clock: nat -> real): (seq<ModelId>, Breaker) {
    if !s.breakerEnabled then (candidates, b)
    else
      var (healthy, after) := Healthy(b, candidates, clock);
      (if healthy != [] then healthy else candidates, after)
  }

  // What happens to the breaker while the first n models of the chain fail hard.
  ghost function Trail(s: Settings, models: seq<ModelId>, n: nat, w: World, offset: nat): seq<Event>
    requires n <= |models|
  {
    if n == 0 then []
    else Trail(s, models, n - 1, w, offset) + w.others(n - 1) + Recorded(s, models, n - 1, w, offset, true)
  }

  // The failure recorded for model i, if it counts and the breaker is in use.
  ghost function Recorded(s: Settings, models: seq<ModelId>, i: nat, w: World, offset: nat, counts: bool): seq<Event>
    requires i < |models|
  {
    if s.breakerEnabled && counts then [FailAt(models[i], w.clock(offset + i))] else []
  }

  // What happens to the breaker in a chain that ends at model i.
  ghost function ChainEvents(s: Settings, models: seq<ModelId>, i: nat, w: World, offset: nat): seq<Event>
    requires i < |models|
  {
    var o := w.call(i, models[i]);
    Trail(s, models, i, w, offset) + w.others(i)
    + if o.Served? && s.breakerEnabled then [SucceedAt(models[i], w.clock(offset + i))]
      else Recorded(s, models, i, w, offset, Hard(o))
  }

  // The chain reaches model i: all before it failed hard.
  ghost predicate Reached(models: seq<ModelId>, w: World, i: nat) {
    i < |models| && forall j: nat :: j < i ==> Hard(w.call(j, models[j]))
  }

  // Model i was tried, failed hard, and its failure is the one to report.
  ghost predicate FailedAt(models: seq<ModelId>, w: World, i: nat, r: Result<Completed, CallOutcome>) {
    Reached(models, w, i) && Hard(w.call(i, models[i])) && r == Err(w.call(i, models[i]))
  }

  // What the chain ends with at model i.
  ghost predicate EndsWith(s: Settings, primary: ModelId, models: seq<ModelId>, start: Breaker, w: World, offset: nat,
                           i: nat, r: Result<Completed, CallOutcome>, after: Breaker) {
    Reached(models, w, i) &&
    var o := w.call(i, models[i]);
    && after == Play(start, ChainEvents(s, models, i, w, offset))
    && if o.Served? then r == Ok(Completed(o.data, models[i], models[i] != primary))
       else r == Err(o) && (Hard(o) ==> i == |models| - 1)
  }

  method CompleteWithFallback(breaker: CircuitBreaker, s: Settings, primary: ModelId, ranked: seq<ModelId>, w: World)
    returns (r: Result<Completed, CallOutcome>, ghost last: nat)
    modifies breaker
    ensures var (models, start) := Chosen(s, old(breaker.Model()), Candidates(s, primary, ranked), w.clock);
            EndsWith(s, primary, models, start, w, |Candidates(s, primary, ranked)|, last, r, breaker.Model())
  {
    hide EndsWith, NoDup, Healthy, Fail, Succeed, Allow, Play;
    var candidates := [primary];
    if s.enableFallback {
      for i := 0 to |ranked|
        invariant candidates == AddDistinct([primary], ranked[..i])
      {
        assert ranked[..i + 1][..i] == ranked[..i];
        if ranked[i] !in candidates {
          candidates := candidates + [ranked[i]];
        }
      }
      assert ranked[..|ranked|] == ranked;
      candidates := if |candidates| > 1 + s.maxFallbacks then candidates[..1 + s.maxFallbacks] else candidates;
    }
    ghost var all := candidates;
    var offset := |candidates|;
    if s.breakerEnabled {
      var healthy := FilterHealthy(breaker, candidates, w.clock);
      if healthy != [] {
        candidates := healthy;
      }
    }
    CandidatesNonempty(s, primary, ranked);
    r, last := RunChain(breaker, s, primary, candidates, w, offset);
  }

  method FilterHealthy(breaker: CircuitBreaker, candidates: seq<ModelId>, clock: nat -> real)
    returns (healthy: seq<ModelId>)
    modifies breaker
    ensures (healthy, breaker.Model()) == Healthy(old(breaker.Model()), candidates, clock)
  {
    healthy := [];
    for i := 0 to |candidates|
      invariant (healthy, breaker.Model()) == Healthy(old(breaker.Model()), candidates[..i], clock)
    {
      assert candidates[..i + 1][..i] == candidates[..i];
      var ok := breaker.IsAllowed(candidates[i], clock(i));
      if ok {
        healthy := healthy + [candidates[i]];
      }
    }
    assert candidates[..|candidates|] == candidates;
  }

  // An upstream call: meanwhile other requests use the breaker.
  method Suspend(breaker: CircuitBreaker, others: seq<Event>)
    modifies breaker
    ensures breaker.Model() == Play(old(breaker.Model()), others)
  {
    hide Allow, Fail, Succeed;
    for i := 0 to |others|
      invariant breaker.Model() == Play(old(breaker.Model()), others[..i])
    {
      assert others[..i + 1][..i] == others[..i];
      match others[i]
      case AllowAt(m, now) => var _ := breaker.IsAllowed(m, now);
      case SucceedAt(m, _) => breaker.RecordSuccess(m);
      case FailAt(m, now) => breaker.RecordFailure(m, now);
    }
    assert others[..|others|] == others;
  }

  method RunChain(breaker: CircuitBreaker, s: Settings, primary: ModelId, models: seq<ModelId>, w: World, offset: nat)
    returns (r: Result<Completed, CallOutcome>, ghost last: nat)
    requires models != []
    modifies breaker
    ensures EndsWith(s, primary, models, old(breaker.Model()), w, offset, last, r, breaker.Model())
  {
    hide Play, Allow, Fail, Succeed;
    ghost var start := breaker.Model();
    PlayNothing(start);
    last, r := 0, Err(Transport);
    for index := 0 to |models|
      invariant index < |models| ==> Reached(models, w, index)
      invariant breaker.Model() == Play(start, Trail(s, models, index, w, offset))
      invariant index > 0 ==> last == index - 1 && FailedAt(models, w, last, r)
    {
      last := index;
      var outcome := w.call(index, models[index]);
      ghost var trail := Trail(s, models, index, w, offset);
      Suspend(breaker, w.others(index));
      PlayAppend(start, trail, w.others(index));
      assert trail + w.others(index) + [] == trail + w.others(index);
      match outcome
      case Served(data) =>
        if s.breakerEnabled {
          PlayLater(start, trail + w.others(index), SucceedAt(models[index], w.clock(offset + index)));
          breaker.RecordSuccess(models[index]);
        }
        return Ok(Completed(data, models[index], models[index] != primary)), last;
      case PoolExhausted =>
        return Err(outcome), last;
      case _ =>
        r := Err(outcome);
        if !ShouldFallback(outcome) {
          return;
        }
        if s.breakerEnabled {
          PlayLater(start, trail + w.others(index), FailAt(models[index], w.clock(offset + index)));
          breaker.RecordFailure(models[index], w.clock(offset + index));
        }
    }
  }

  lemma PlayNothing(start: Breaker)
    ensures Play(start, []) == start
  {
  }

  lemma PlayLater(start: Breaker, events: seq<Event>, e: Event)
    ensures Play(start, events + [e]) == Step(Play(start, events), e)
  {
    assert (events + [e])[..|events|] == events;
    hide Step;
  }

  lemma {:induction false} PlayAppend(start: Breaker, a: seq<Event>, b: seq<Event>)
    ensures Play(start, a + b) == Play(Play(start, a), b)
  {
    hide Step;
    if b == [] {
      assert a + b == a;
    } else {
      var front := b[..|b| - 1];
      PlayAppend(start, a, front);
      assert (a + b)[..|a + b| - 1] == a + front && (a + b)[|a + b| - 1] == b[|b| - 1];
    }
  }

  // ---- What the chain guarantees ----

  lemma {:induction false} AddDistinctFacts(candidates: seq<ModelId>, ranked: seq<ModelId>)
    requires NoDup(candidates)
    ensures NoDup(AddDistinct(candidates, ranked)) && |AddDistinct(candidates, ranked)| >= |candidates|
    ensures AddDistinct(candidates, ranked)[..|candidates|] == candidates
  {
    if ranked != [] {
      var front, m := AddDistinct(candidates, ranked[..|ranked| - 1]), ranked[|ranked| - 1];
      AddDistinctFacts(candidates, ranked[..|ranked| - 1]);
      if m !in front { AppendDistinct(front, m); }
      hide NoDup;
    }
  }

  lemma CandidatesNonempty(s: Settings, primary: ModelId, ranked: seq<ModelId>)
    ensures Candidates(s, primary, ranked) != [] && Candidates(s, primary, ranked)[0] == primary
    ensures NoDup(Candidates(s, primary, ranked)) && |Candidates(s, primary, ranked)| <= 1 + s.maxFallbacks
  {
    hide NoDup, AddDistinct;
    Singleton(primary);
    AddDistinctFacts([primary], ranked);
    var all := AddDistinct([primary], ranked);
    if |all| > 1 + s.maxFallbacks { NoDupPrefix(all, 1 + s.maxFallbacks); }
    assert all[0] == all[..1][0];
  }

  lemma Singleton(m: ModelId)
    ensures NoDup([m])
  {
    assert Elems([m]) == {m};
  }

  lemma {:induction false} HealthyFacts(b: Breaker, candidates: seq<ModelId>, clock: nat -> real)
    requires NoDup(candidates)
    ensures var healthy := Healthy(b, candidates, clock).0;
            NoDup(healthy) && Elems(healthy) <= Elems(candidates) && |healthy| <= |candidates|
  {
    if candidates != [] {
      var front, m := candidates[..|candidates| - 1], candidates[|candidates| - 1];
      NoDupPrefix(candidates, |front|);
      NextIsNew(candidates, |front|);
      HealthyFacts(b, front, clock);
      hide NoDup;
      assert candidates[..|front| + 1] == candidates;
      assert m !in Elems(Healthy(b, front, clock).0);
      AppendDistinct(Healthy(b, front, clock).0, m);
    }
  }

  // The models tried are pairwise distinct and at most 1 + max_model_fallbacks, all of them candidates.
  lemma {:induction false} ChainIsBounded(s: Settings, b: Breaker, primary: ModelId, ranked: seq<ModelId>,
                                          clock: nat -> real)
    ensures var models := Chosen(s, b, Candidates(s, primary, ranked), clock).0;
            models != [] && NoDup(models) && |models| <= 1 + s.maxFallbacks
            && Elems(models) <= Elems(Candidates(s, primary, ranked))
  {
    CandidatesNonempty(s, primary, ranked);
    HealthyFacts(b, Candidates(s, primary, ranked), clock);
  }

  lemma {:induction false} HealthyAsks(b: Breaker, candidates: seq<ModelId>, clock: nat -> real, m: ModelId)
    ensures var after := Healthy(b, candidates, clock).1;
            Failures(after, m) == Failures(b, m) && after.threshold == b.threshold
            && after.reset == b.reset && after.openedAt == b.openedAt
  {
    if candidates != [] {
      HealthyAsks(b, candidates[..|candidates| - 1], clock, m);
    }
  }

  lemma AllowSame(a: Breaker, b: Breaker, m: ModelId, now: real)
    requires Failures(a, m) == Failures(b, m) && a.threshold == b.threshold && a.reset == b.reset &&
      a.openedAt == b.openedAt
    ensures Allow(a, m, now).0 == Allow(b, m, now).0
  {
  }

  lemma {:induction false} HealthyNext(b: Breaker, front: seq<ModelId>, m: ModelId, clock: nat -> real, x: ModelId)
    ensures x in Healthy(b, front + [m], clock).0
      <==> x in Healthy(b, front, clock).0 || (x == m && Allow(Healthy(b, front, clock).1, m, clock(|front|)).0)
  {
    assert (front + [m])[..|front|] == front;
    hide Allow;
  }

  // The breaker lets a model through exactly as `allow` would on its own: asking about one
  // model does not change the answer for another.
  lemma {:induction false} HealthyIffAllowed(b: Breaker, candidates: seq<ModelId>, clock: nat -> real, i: nat)
    requires NoDup(candidates) && i < |candidates|
    ensures candidates[i] in Healthy(b, candidates, clock).0 <==> Allow(b, candidates[i], clock(i)).0
  {
    hide *;
    var front, m := candidates[..|candidates| - 1], candidates[|candidates| - 1];
    assert candidates == front + [m];
    NoDupPrefix(candidates, |front|);
    NoDupIndices(candidates);
    HealthyNext(b, front, m, clock, candidates[i]);
    HealthyAsks(b, front, clock, m);
    AllowSame(Healthy(b, front, clock).1, b, m, clock(|front|));
    if i < |front| {
      HealthyIffAllowed(b, front, clock, i);
      assert front[i] == candidates[i] != m;
    } else {
      NewAtTheEnd(b, front, m, clock);
    }
  }

  lemma {:induction false} NewAtTheEnd(b: Breaker, front: seq<ModelId>, m: ModelId, clock: nat -> real)
    requires NoDup(front + [m])
    ensures m !in Healthy(b, front, clock).0
  {
    hide NoDup, Healthy;
    NoDupPrefix(front + [m], |front|);
    NextIsNew(front + [m], |front|);
    assert (front + [m])[..|front|] == front;
    HealthyFacts(b, front, clock);
    assert m in Healthy(b, front, clock).0 ==> m in Elems(Healthy(b, front, clock).0);
  }

  // One hard failure of a model adds one to its count, or puts it at the threshold when it was half-open.
  function FailedCount(b: Breaker, m: ModelId): nat {
    if m in b.halfOpen then b.threshold else Failures(b, m) + 1
  }

  // No event of other requests during the first n calls is about m.
  ghost predicate LeftAlone(w: World, m: ModelId, n: nat) {
    forall j: nat, e :: j < n && e in w.others(j) ==> e.m != m
  }

  lemma {:induction false} Unaffected(b: Breaker, events: seq<Event>, m: ModelId)
    requires forall e :: e in events ==> e.m != m
    ensures var after := Play(b, events);
            Failures(after, m) == Failures(b, m) && (m in after.halfOpen <==> m in b.halfOpen)
  {
    if events != [] {
      Unaffected(b, events[..|events| - 1], m);
      assert events[|events| - 1] in events;
      hide Play;
    }
  }

  lemma {:induction false} TrailCounts(s: Settings, b: Breaker, models: seq<ModelId>, n: nat, w: World, offset: nat,
                                       m: ModelId)
    requires NoDup(models) && n <= |models| && s.breakerEnabled && LeftAlone(w, m, n)
    ensures var after := Play(b, Trail(s, models, n, w, offset));
            && Failures(after, m) == (if m in models[..n] then FailedCount(b, m) else Failures(b, m))
            && (m !in models[..n] ==> (m in after.halfOpen <==> m in b.halfOpen))
  {
    hide *;
    if n == 0 {
      TrailEmpty(s, models, w, offset);
      PlayNothing(b);
    } else {
      var trail, event := Trail(s, models, n - 1, w, offset), FailAt(models[n - 1], w.clock(offset + n - 1));
      LeftAloneBefore(w, m, n - 1);
      TrailCounts(s, b, models, n - 1, w, offset, m);
      OneMoreTried(models, n - 1, m);
      TrailNext(s, models, n - 1, w, offset);
      PlayAppend(b, trail, w.others(n - 1));
      Unaffected(Play(b, trail), w.others(n - 1), m);
      PlayLater(b, trail + w.others(n - 1), event);
      FailCounts(Play(b, trail + w.others(n - 1)), models[n - 1], event.now, m);
      SameFailedCount(Play(b, trail + w.others(n - 1)), b, m);
    }
  }

  lemma SameFailedCount(a: Breaker, b: Breaker, m: ModelId)
    ensures Failures(a, m) == Failures(b, m) && (m in a.halfOpen <==> m in b.halfOpen) && a.threshold == b.threshold ==>
      FailedCount(a, m) == FailedCount(b, m)
  {
  }

  lemma FailCounts(b: Breaker, x: ModelId, now: real, m: ModelId)
    ensures var after := Step(b, FailAt(x, now));
            && Failures(after, m) == (if m == x then FailedCount(b, m) else Failures(b, m))
            && (m != x ==> (m in after.halfOpen <==> m in b.halfOpen))
  {
  }

  lemma {:induction false} LeftAloneBefore(w: World, m: ModelId, n: nat)
    requires LeftAlone(w, m, n + 1)
    ensures LeftAlone(w, m, n) && forall e :: e in w.others(n) ==> e.m != m
  {
  }

  lemma {:induction false} TrailEmpty(s: Settings, models: seq<ModelId>, w: World, offset: nat)
    ensures Trail(s, models, 0, w, offset) == [] && models[..0] == []
  {
  }

  lemma {:induction false} TrailNext(s: Settings, models: seq<ModelId>, n: nat, w: World, offset: nat)
    requires n < |models| && s.breakerEnabled
    ensures Trail(s, models, n + 1, w, offset)
      == Trail(s, models, n, w, offset) + w.others(n) + [FailAt(models[n], w.clock(offset + n))]
  {
  }

  lemma {:induction false} OneMoreTried(models: seq<ModelId>, n: nat, m: ModelId)
    requires NoDup(models) && n < |models|
    ensures models[n] !in models[..n] && (m in models[..n + 1] <==> m in models[..n] || m == models[n])
  {
    NextIsNew(models, n);
    hide NoDup;
    assert models[n] !in models[..n];
  }

  // As far as other requests leave a model alone: tried before the last, it gains exactly one hard
  // failure; served, it ends at zero; failed otherwise or not tried, it keeps its count.
  lemma {:induction false} ChainCounts(s: Settings, primary: ModelId, models: seq<ModelId>, start: Breaker, w: World,
                                       offset: nat, i: nat, r: Result<Completed, CallOutcome>, after: Breaker,
                                       m: ModelId)
    requires NoDup(models) && s.breakerEnabled && EndsWith(s, primary, models, start, w, offset, i, r, after)
    requires LeftAlone(w, m, i + 1)
    ensures Failures(after, m) ==
      if m in models[..i] then FailedCount(start, m)
      else if m != models[i] then Failures(start, m)
      else if r.Ok? then 0
      else if Hard(w.call(i, models[i])) then FailedCount(start, m)
      else Failures(start, m)
  {
    hide Play, NoDup, Trail;
    var trail, others := Trail(s, models, i, w, offset), w.others(i);
    NextIsNew(models, i);
    assert models[i] !in models[..i];
    TrailCounts(s, start, models, i, w, offset, m);
    PlayAppend(start, trail, others);
    Unaffected(Play(start, trail), others, m);
    PlayLater(start, trail + others, FailAt(models[i], w.clock(offset + i)));
    PlayLater(start, trail + others, SucceedAt(models[i], w.clock(offset + i)));
    assert trail + others + [] == trail + others;
  }

  ghost function FailuresOf(events: seq<Event>, m: ModelId): nat {
    if events == [] then 0
    else
      var e := events[|events| - 1];
      FailuresOf(events[..|events| - 1], m) + if e.FailAt? && e.m == m then 1 else 0
  }

  ghost function OthersIn(w: World, n: nat): seq<Event> {
    if n == 0 then [] else OthersIn(w, n - 1) + w.others(n - 1)
  }

  lemma {:induction false} FailuresAppend(a: seq<Event>, b: seq<Event>, m: ModelId)
    ensures FailuresOf(a + b, m) == FailuresOf(a, m) + FailuresOf(b, m)
  {
    if b == [] {
      assert a + b == a;
    } else {
      FailuresAppend(a, b[..|b| - 1], m);
      assert (a + b)[..|a + b| - 1] == a + b[..|b| - 1];
    }
  }

  lemma OneFailure(m: ModelId, x: ModelId, now: real)
    ensures FailuresOf([FailAt(x, now)], m) == (if x == m then 1 else 0) && FailuresOf([SucceedAt(x, now)], m) == 0
  {
    assert [FailAt(x, now)][..0] == [] && [SucceedAt(x, now)][..0] == [];
  }

  lemma {:induction false} TrailRecords(s: Settings, models: seq<ModelId>, n: nat, w: World, offset: nat, m: ModelId)
    requires NoDup(models) && n <= |models| && s.breakerEnabled
    ensures FailuresOf(Trail(s, models, n, w, offset), m)
      == FailuresOf(OthersIn(w, n), m) + if m in models[..n] then 1 else 0
  {
    hide *;
    if n == 0 {
      TrailEmpty(s, models, w, offset);
      NoOthers(w, m);
    } else {
      var trail, others := Trail(s, models, n - 1, w, offset), w.others(n - 1);
      TrailRecords(s, models, n - 1, w, offset, m);
      OneMoreTried(models, n - 1, m);
      TrailNext(s, models, n - 1, w, offset);
      FailuresAppend(trail, others, m);
      FailuresAppend(trail + others, [FailAt(models[n - 1], w.clock(offset + n - 1))], m);
      OthersNext(w, n - 1, m);
      OneFailure(m, models[n - 1], w.clock(offset + n - 1));
    }
  }

  lemma NoOthers(w: World, m: ModelId)
    ensures FailuresOf(OthersIn(w, 0), m) == FailuresOf([], m) == 0
  {
  }

  lemma {:induction false} OthersNext(w: World, n: nat, m: ModelId)
    ensures FailuresOf(OthersIn(w, n + 1), m) == FailuresOf(OthersIn(w, n), m) + FailuresOf(w.others(n), m)
  {
    hide FailuresOf;
    FailuresAppend(OthersIn(w, n), w.others(n), m);
  }

  // Whatever other requests do meanwhile, the chain itself records exactly one failure for each
  // model before the last, one for the last if it failed hard, and none for any other.
  lemma {:induction false} ChainRecords(s: Settings, models: seq<ModelId>, i: nat, w: World, offset: nat, m: ModelId)
    requires NoDup(models) && i < |models| && s.breakerEnabled
    ensures FailuresOf(ChainEvents(s, models, i, w, offset), m) == FailuresOf(OthersIn(w, i + 1), m)
      + if m in models[..i] || (m == models[i] && Hard(w.call(i, models[i]))) then 1 else 0
  {
    hide NoDup, FailuresOf, Trail;
    var trail, others, now := Trail(s, models, i, w, offset), w.others(i), w.clock(offset + i);
    NextIsNew(models, i);
    assert models[i] !in models[..i];
    TrailRecords(s, models, i, w, offset, m);
    FailuresAppend(trail, others, m);
    FailuresAppend(OthersIn(w, i), others, m);
    FailuresAppend(trail + others, [FailAt(models[i], now)], m);
    FailuresAppend(trail + others, [SucceedAt(models[i], now)], m);
    OneFailure(m, models[i], now);
    assert trail + others + [] == trail + others;
  }

  // The model that served has a clean record afterwards, whatever other requests recorded about it.
  lemma {:induction false} ServedIsReset(s: Settings, primary: ModelId, models: seq<ModelId>, start: Breaker, w: World,
                                         offset: nat, i: nat, r: Result<Completed, CallOutcome>, after: Breaker)
    requires s.breakerEnabled && EndsWith(s, primary, models, start, w, offset, i, r, after) && r.Ok?
    ensures Failures(after, models[i]) == 0 && models[i] !in after.openedAt && models[i] !in after.halfOpen
  {
    hide Play, Trail;
    PlayLater(start, Trail(s, models, i, w, offset) + w.others(i), SucceedAt(models[i], w.clock(offset + i)));
  }

  // The chain is determined: it ends at the first model that does not fail hard, or at the last one.
  lemma {:induction false} ChainEndUnique(s: Settings, primary: ModelId, models: seq<ModelId>, start: Breaker,
                                          w: World, offset: nat,
                                          i: nat, r: Result<Completed, CallOutcome>, a: Breaker,
                                          j: nat, q: Result<Completed, CallOutcome>, b: Breaker)
    requires EndsWith(s, primary, models, start, w, offset, i, r, a) &&
      EndsWith(s, primary, models, start, w, offset, j, q, b)
    ensures i == j && r == q && a == b
  {
    assert i < j ==> Hard(w.call(i, models[i]));
    assert j < i ==> Hard(w.call(j, models[j]));
  }

  // ---- Which models are tried ----

  // The failures that make the chain go on: 404, 5xx, and errors without a response.
  lemma {:induction false} HardIff(o: CallOutcome)
    ensures Hard(o) <==> o.Transport? || (o.HttpError? && (o.code == 404 || o.code >= 500))
  {
  }

  // The i-th ranked model is not the primary and was not ranked before.
  ghost predicate NewAt(primary: ModelId, ranked: seq<ModelId>, i: nat) {
    i < |ranked| && ranked[i] != primary && ranked[i] !in ranked[..i]
  }

  // The primary, then every other ranked model once, in rank order; `at` says where it is ranked.
  ghost predicate InRankOrder(all: seq<ModelId>, primary: ModelId, ranked: seq<ModelId>, at: seq<nat>) {
    && |all| == |at| + 1 && all[0] == primary
    && (forall k :: 0 <= k < |at| ==> NewAt(primary, ranked, at[k]) && all[k + 1] == ranked[at[k]])
    && (forall k, l :: 0 <= k < l < |at| ==> at[k] < at[l])
    && (forall i: nat :: NewAt(primary, ranked, i) ==> i in at)
  }

  lemma {:induction false} RankedMembers(all: seq<ModelId>, primary: ModelId, ranked: seq<ModelId>, at: seq<nat>,
                                         m: ModelId)
    requires InRankOrder(all, primary, ranked, at)
    ensures m in all <==> m == primary || m in ranked
  {
    if m in all && m != primary {
      var k :| 0 < k < |all| && all[k] == m;
      assert NewAt(primary, ranked, at[k - 1]) && all[k - 1 + 1] == ranked[at[k - 1]];
    }
    if m in ranked && m != primary {
      var i := FirstRank(ranked, m);
      assert NewAt(primary, ranked, i);
      var k :| 0 <= k < |at| && at[k] == i;
      assert all[k + 1] == m;
    }
  }

  lemma {:induction false} FirstRank(ranked: seq<ModelId>, m: ModelId) returns (i: nat)
    requires m in ranked
    ensures i < |ranked| && ranked[i] == m && m !in ranked[..i]
  {
    var front := ranked[..|ranked| - 1];
    if m in front {
      i := FirstRank(front, m);
      assert ranked[..i] == front[..i];
    } else {
      i := |ranked| - 1;
    }
  }

  lemma {:induction false} NewStays(primary: ModelId, front: seq<ModelId>, m: ModelId, i: nat)
    ensures NewAt(primary, front + [m], i)
      <==> NewAt(primary, front, i) || (i == |front| && m != primary && m !in front)
  {
    if i < |front| { assert (front + [m])[..i] == front[..i]; }
    assert (front + [m])[..|front|] == front;
  }

  lemma {:induction false} DistinctInRankOrder(primary: ModelId, ranked: seq<ModelId>) returns (at: seq<nat>)
    ensures InRankOrder(AddDistinct([primary], ranked), primary, ranked, at)
  {
    if ranked == [] {
      at := [];
    } else {
      var front, m := ranked[..|ranked| - 1], ranked[|ranked| - 1];
      var before := DistinctInRankOrder(primary, front);
      assert ranked == front + [m];
      RankedMembers(AddDistinct([primary], front), primary, front, before, m);
      at := if m == primary || m in front then before else before + [|front|];
      NextInRankOrder(AddDistinct([primary], front), primary, front, before, m);
    }
  }

  lemma {:induction false} NextInRankOrder(all: seq<ModelId>, primary: ModelId, front: seq<ModelId>, at: seq<nat>,
                                           m: ModelId)
    requires InRankOrder(all, primary, front, at)
    ensures m == primary || m in front ==> InRankOrder(all, primary, front + [m], at)
    ensures m != primary && m !in front ==> InRankOrder(all + [m], primary, front + [m], at + [|front|])
  {
    hide NewAt;
    forall i: nat
      ensures NewAt(primary, front + [m], i)
        <==> NewAt(primary, front, i) || (i == |front| && m != primary && m !in front)
      ensures NewAt(primary, front, i) ==> i < |front|
    {
      NewStays(primary, front, m, i);
      NewBelow(primary, front, i);
    }
  }

  lemma {:induction false} NewBelow(primary: ModelId, ranked: seq<ModelId>, i: nat)
    ensures NewAt(primary, ranked, i) ==> i < |ranked|
  {
  }

  // The candidates are the primary and, with fallback enabled, every other ranked model once in rank
  // order, as many as 1 + max_model_fallbacks leaves room for.
  lemma {:induction false} CandidatesExact(s: Settings, primary: ModelId, ranked: seq<ModelId>)
    returns (all: seq<ModelId>, at: seq<nat>)
    ensures InRankOrder(all, primary, ranked, at)
    ensures var limit := if s.enableFallback then 1 + s.maxFallbacks else 1;
            Candidates(s, primary, ranked) == if |all| <= limit then all else all[..limit]
    ensures forall m :: m in ranked && s.enableFallback ==>
      m in Candidates(s, primary, ranked) || |Candidates(s, primary, ranked)| == 1 + s.maxFallbacks
  {
    hide AddDistinct;
    at := DistinctInRankOrder(primary, ranked);
    all := AddDistinct([primary], ranked);
    assert all[..1] == [primary];
    forall m | m in ranked ensures m in all {
      RankedMembers(all, primary, ranked, at, m);
    }
  }

  // The models tried: those candidates the breaker lets through, or all of them if it lets none through.
  lemma {:induction false} ChosenExact(s: Settings, b: Breaker, candidates: seq<ModelId>, clock: nat -> real, i: nat)
    requires NoDup(candidates) && i < |candidates|
    ensures candidates[i] in Chosen(s, b, candidates, clock).0 <==>
      || !s.breakerEnabled || Allow(b, candidates[i], clock(i)).0
      || forall j: nat :: j < |candidates| ==> !Allow(b, candidates[j], clock(j)).0
  {
    hide NoDup, Allow, Healthy;
    HealthyIffAllowed(b, candidates, clock, i);
    var healthy := Healthy(b, candidates, clock).0;
    if healthy == [] {
      forall j: nat | j < |candidates| ensures !Allow(b, candidates[j], clock(j)).0 {
        HealthyIffAllowed(b, candidates, clock, j);
      }
    } else {
      var m := healthy[0];
      HealthyFacts(b, candidates, clock);
      assert m in Elems(healthy);
      var j: nat :| j < |candidates| && candidates[j] == m;
      HealthyIffAllowed(b, candidates, clock, j);
    }
  }

  // ... in the order of the candidates.
  lemma {:induction false} HealthyInOrder(b: Breaker, candidates: seq<ModelId>, clock: nat -> real)
    returns (at: seq<nat>)
    ensures Increasing(at) && Copies(Healthy(b, candidates, clock).0, candidates, at)
  {
    at := [];
    if candidates != [] {
      hide Allow, Increasing, Copies;
      var front, m := candidates[..|candidates| - 1], candidates[|candidates| - 1];
      at := HealthyInOrder(b, front, clock);
      CopiesNext(Healthy(b, front, clock).0, front, at, m);
      assert candidates == front + [m];
      if Healthy(b, candidates, clock).0 != Healthy(b, front, clock).0 { at := at + [|front|]; }
    }
  }

  lemma {:induction false} CopiesNext(s: seq<ModelId>, source: seq<ModelId>, at: seq<nat>, m: ModelId)
    requires Increasing(at) && Copies(s, source, at)
    ensures Copies(s, source + [m], at)
    ensures Increasing(at + [|source|]) && Copies(s + [m], source + [m], at + [|source|])
  {
  }

  // A request that ends in a hard failure has tried every candidate the breaker let through, and each
  // of them failed hard.
  lemma {:induction false} FailureTriedAll(s: Settings, b: Breaker, primary: ModelId, ranked: seq<ModelId>, w: World,
                                           i: nat, r: Result<Completed, CallOutcome>, after: Breaker, c: nat)
    requires var candidates := Candidates(s, primary, ranked);
             var (models, start) := Chosen(s, b, candidates, w.clock);
             && EndsWith(s, primary, models, start, w, |candidates|, i, r, after)
             && r.Err? && Hard(r.error) && c < |candidates|
             && (!s.breakerEnabled || Allow(b, candidates[c], w.clock(c)).0)
    ensures var candidates := Candidates(s, primary, ranked);
            var models := Chosen(s, b, candidates, w.clock).0;
            exists j: nat :: j < |models| && models[j] == candidates[c] && Hard(w.call(j, models[j]))
  {
    hide Candidates, Chosen, Allow, NoDup, Hard, Play, ChainEvents;
    var candidates := Candidates(s, primary, ranked);
    var models := Chosen(s, b, candidates, w.clock).0;
    CandidatesNonempty(s, primary, ranked);
    ChosenExact(s, b, candidates, w.clock, c);
    var j: nat :| j < |models| && models[j] == candidates[c];
    assert j < i ==> Hard(w.call(j, models[j]));
  }
}
