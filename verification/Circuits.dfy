/** The per-model circuit breaker (nvidia_smartroute/circuit.py). */
module Circuits {
  datatype ModelId = ModelId(name: string)

  datatype State = Closed | HalfOpen | Open

  // The breaker's dictionaries as a value; `halfOpen` holds the models mapped to True.
  datatype Breaker = Breaker(
    threshold: nat, reset: real,
    failures: map<ModelId, nat>, openedAt: map<ModelId, real>, halfOpen: set<ModelId>
  )

  function Failures(b: Breaker, m: ModelId): nat {
    if m in b.failures then b.failures[m] else 0
  }

  function OpenedAt(b: Breaker, m: ModelId): real {
    if m in b.openedAt then b.openedAt[m] else 0.0
  }

  function Allow(b: Breaker, m: ModelId, now: real): (bool, Breaker) {
    if Failures(b, m) < b.threshold then (true, b)
    else if now - OpenedAt(b, m) >= b.reset then (true, b.(halfOpen := b.halfOpen + {m}))
    else (false, b)
  }

  function Succeed(b: Breaker, m: ModelId): Breaker {
    b.(failures := b.failures[m := 0], halfOpen := b.halfOpen - {m}, openedAt := b.openedAt - {m})
  }

  function Fail(b: Breaker, m: ModelId, now: real): Breaker {
    if m in b.halfOpen then
      b.(halfOpen := b.halfOpen - {m}, failures := b.failures[m := b.threshold], openedAt := b.openedAt[m := now])
    else
      var count := Failures(b, m) + 1;
      b.(failures := b.failures[m := count],
         openedAt := if count >= b.threshold && m !in b.openedAt then b.openedAt[m := now] else b.openedAt)
  }

  function StateOf(b: Breaker, m: ModelId, now: real): State {
    if Failures(b, m) < b.threshold then Closed
    else if m in b.halfOpen then HalfOpen
    else if now - OpenedAt(b, m) >= b.reset then HalfOpen
    else Open
  }

  function NewBreaker(threshold: nat, reset: real): Breaker {
    Breaker(threshold, reset, map[], map[], {})
  }

  class CircuitBreaker {
    const threshold: nat
    const reset: real
    var failures: map<ModelId, nat>
    var openedAt: map<ModelId, real>
    var halfOpen: set<ModelId>

    constructor (threshold: nat, reset: real)
      ensures Model() == NewBreaker(threshold, reset)
    {
      this.threshold, this.reset := threshold, reset;
      failures, openedAt, halfOpen := map[], map[], {};
    }

    function Model(): Breaker
      reads this
    {
      Breaker(threshold, reset, failures, openedAt, halfOpen)
    }

    method IsAllowed(m: ModelId, now: real) returns (ok: bool)
      modifies `halfOpen
      ensures (ok, Model()) == Allow(old(Model()), m, now)
    {
      var count := if m in failures then failures[m] else 0;
      if count < threshold {
        return true;
      }
      if now - (if m in openedAt then openedAt[m] else 0.0) >= reset {
        halfOpen := halfOpen + {m};
        return true;
      }
      ok := false;
    }

    method RecordSuccess(m: ModelId)
      modifies this
      ensures Model() == Succeed(old(Model()), m)
    {
      failures := failures[m := 0];
      halfOpen := halfOpen - {m};
      openedAt := openedAt - {m};
    }

    method RecordFailure(m: ModelId, now: real)
      modifies this
      ensures Model() == Fail(old(Model()), m, now)
    {
      if m in halfOpen {
        halfOpen := halfOpen - {m};
        failures := failures[m := threshold];
        openedAt := openedAt[m := now];
        return;
      }
      failures := failures[m := (if m in failures then failures[m] else 0) + 1];
      if failures[m] >= threshold && m !in openedAt {
        openedAt := openedAt[m := now];
      }
    }

    method CurrentState(m: ModelId, now: real) returns (s: State)
      ensures s == StateOf(Model(), m, now)
    {
      var count := if m in failures then failures[m] else 0;
      if count < threshold {
        return Closed;
      }
      if m in halfOpen {
        return HalfOpen;
      }
      s := if now - (if m in openedAt then openedAt[m] else 0.0) >= reset then HalfOpen else Open;
    }
  }

  // ---- Whole traces ----

  datatype Event = AllowAt(m: ModelId, now: real) | SucceedAt(m: ModelId, now: real) | FailAt(m: ModelId, now: real)

  function Step(b: Breaker, e: Event): Breaker {
    match e
    case AllowAt(m, now) => Allow(b, m, now).1
    case SucceedAt(m, _) => Succeed(b, m)
    case FailAt(m, now) => Fail(b, m, now)
  }

  ghost function Play(start: Breaker, events: seq<Event>): (after: Breaker)
    ensures after.threshold == start.threshold && after.reset == start.reset
  {
    if events == [] then start else Step(Play(start, events[..|events| - 1]), events[|events| - 1])
  }

  ghost predicate Chronological(events: seq<Event>, begin: real) {
    forall i :: 0 <= i < |events| ==>
      begin <= events[i].now && forall j :: i < j < |events| ==> events[i].now <= events[j].now
  }

  // A model has tripped exactly when its opening is on record, and a half-open one has tripped
  // and sat out its cooldown.
  ghost predicate Coherent(b: Breaker, now: real) {
    && b.threshold >= 1
    && (forall m :: Failures(b, m) >= b.threshold <==> m in b.openedAt)
    && (forall m :: m in b.openedAt ==> b.openedAt[m] <= now)
    && forall m :: m in b.halfOpen ==> m in b.openedAt && now - b.openedAt[m] >= b.reset
  }

  lemma StepCoherent(b: Breaker, e: Event, before: real)
    requires Coherent(b, before) && before <= e.now
    ensures Coherent(Step(b, e), e.now)
  {
    var after := Step(b, e);
    forall m ensures Failures(after, m) >= after.threshold <==> m in after.openedAt {
      assert Failures(b, m) >= b.threshold <==> m in b.openedAt;
    }
  }

  lemma {:induction false} AlwaysCoherent(start: Breaker, events: seq<Event>, begin: real, now: real)
    requires Coherent(start, begin) && Chronological(events, begin) && begin <= now
    requires forall i :: 0 <= i < |events| ==> events[i].now <= now
    ensures Coherent(Play(start, events), now)
  {
    hide Step, Coherent;
    if events == [] {
      CoherentLater(start, begin, now);
    } else {
      var front, e := events[..|events| - 1], events[|events| - 1];
      AlwaysCoherent(start, front, begin, e.now);
      StepCoherent(Play(start, front), e, e.now);
      CoherentLater(Play(start, events), e.now, now);
    }
  }

  lemma CoherentLater(b: Breaker, before: real, now: real)
    requires Coherent(b, before) && before <= now
    ensures Coherent(b, now)
  {
  }

  // After any trace from a new breaker, `state` reports open exactly when `allow` would deny.
  lemma {:induction false} OpenIffDenied(threshold: nat, reset: real, events: seq<Event>, begin: real, now: real,
                                         m: ModelId)
    requires threshold >= 1 && Chronological(events, begin) && begin <= now
    requires forall i :: 0 <= i < |events| ==> events[i].now <= now
    ensures var b := Play(NewBreaker(threshold, reset), events);
            && Coherent(b, now)
            && (StateOf(b, m, now) == Open <==> !Allow(b, m, now).0)
  {
    AlwaysCoherent(NewBreaker(threshold, reset), events, begin, now);
    hide Play;
  }

  // Until a success, the opening instant stays or moves on by at least one cooldown.
  lemma {:induction false} ReopeningsApart(start: Breaker, events: seq<Event>, begin: real, m: ModelId)
    requires Coherent(start, begin) && Chronological(events, begin) && m in start.openedAt && start.reset >= 0.0
    requires forall i :: 0 <= i < |events| ==> events[i].SucceedAt? ==> events[i].m != m
    ensures var b := Play(start, events);
            && m in b.openedAt
            && (b.openedAt[m] == start.openedAt[m] || b.openedAt[m] >= start.openedAt[m] + start.reset)
  {
    if events != [] {
      var front, e := events[..|events| - 1], events[|events| - 1];
      ReopeningsApart(start, front, begin, m);
      AlwaysCoherent(start, front, begin, e.now);
      hide Play, Chronological;
    }
  }

  // The breaker does not ration probes: once a call to a tripped model is let through, every
  // further call is too, as long as no outcome of the model is recorded.
  lemma {:induction false} ProbesUnlimited(b: Breaker, m: ModelId, events: seq<Event>, now: real, later: real)
    requires Allow(b, m, now).0 && Chronological(events, now) && now <= later
    requires forall i :: 0 <= i < |events| ==> events[i].AllowAt? || events[i].m != m
    ensures Allow(Play(Allow(b, m, now).1, events), m, later).0
    ensures Failures(Play(Allow(b, m, now).1, events), m) == Failures(b, m)
    ensures OpenedAt(Play(Allow(b, m, now).1, events), m) == OpenedAt(b, m)
  {
    if events != [] {
      ProbesUnlimited(b, m, events[..|events| - 1], now, later);
      hide Play, Chronological;
    }
  }

  // Only a recorded failure ends that: as long as no success of the model is recorded, a later call
  // is denied exactly when a failure has been and the circuit is within its cooldown, which then
  // runs from one of those failures. A success starts the count afresh (DeniedIff).
  lemma ProbesEndIff(b: Breaker, m: ModelId, events: seq<Event>, now: real, later: real)
    requires Allow(b, m, now).0 && Failures(b, m) >= b.threshold && Chronological(events, now) && now <= later
    requires forall i :: 0 <= i < |events| ==> events[i].SucceedAt? ==> events[i].m != m
    ensures var after := Play(Allow(b, m, now).1, events);
            && (!Allow(after, m, later).0 <==> Failed(events, m) && later - OpenedAt(after, m) < b.reset)
            && (Failed(events, m) ==> FailAt(m, OpenedAt(after, m)) in events)
            && (!Failed(events, m) ==> OpenedAt(after, m) == OpenedAt(b, m))
  {
    ProbeState(b, m, events, now);
    hide Play, Chronological, Failed;
  }

  ghost predicate Failed(events: seq<Event>, m: ModelId) {
    exists i :: 0 <= i < |events| && events[i].FailAt? && events[i].m == m
  }

  lemma {:induction false} ProbeState(b: Breaker, m: ModelId, events: seq<Event>, now: real)
    requires Allow(b, m, now).0 && Failures(b, m) >= b.threshold
    requires forall i :: 0 <= i < |events| ==> events[i].SucceedAt? ==> events[i].m != m
    ensures var after := Play(Allow(b, m, now).1, events);
            && Failures(after, m) >= b.threshold
            && (Failed(events, m) ==> FailAt(m, OpenedAt(after, m)) in events)
            && (!Failed(events, m) ==> OpenedAt(after, m) == OpenedAt(b, m) && m in after.halfOpen)
            && (Failed(events, m) ==> m in after.openedAt)
  {
    if events != [] {
      var front, e := events[..|events| - 1], events[|events| - 1];
      ProbeState(b, m, front, now);
      assert events == front + [e];
      FailedNext(front, e, m);
      hide Play, Failed;
    }
  }

  lemma FailedNext(front: seq<Event>, e: Event, m: ModelId)
    ensures Failed(front + [e], m) <==> Failed(front, m) || (e.FailAt? && e.m == m)
  {
    if Failed(front, m) {
      var i :| 0 <= i < |front| && front[i].FailAt? && front[i].m == m;
      assert (front + [e])[i] == front[i];
    }
    assert (front + [e])[|front|] == e;
  }

  // The failures of a model since its last success.
  ghost function FailuresSince(events: seq<Event>, m: ModelId): nat {
    if events == [] then 0
    else
      var before, e := FailuresSince(events[..|events| - 1], m), events[|events| - 1];
      if e.m != m || e.AllowAt? then before else if e.SucceedAt? then 0 else before + 1
  }

  lemma {:induction false} CountsAgree(threshold: nat, reset: real, events: seq<Event>, m: ModelId)
    ensures var b := Play(NewBreaker(threshold, reset), events);
            && (Failures(b, m) < threshold ==> Failures(b, m) == FailuresSince(events, m))
            && (Failures(b, m) >= threshold ==> FailuresSince(events, m) >= threshold)
            && (m in b.halfOpen ==> Failures(b, m) >= threshold)
  {
    if events != [] {
      CountsAgree(threshold, reset, events[..|events| - 1], m);
      hide Play;
      PlayLast(NewBreaker(threshold, reset), events);
    }
  }

  lemma PlayLast(start: Breaker, events: seq<Event>)
    requires events != []
    ensures Play(start, events) == Step(Play(start, events[..|events| - 1]), events[|events| - 1])
  {
    hide Step;
  }

  // Over every trace a model is denied exactly when it has failed often enough since its last
  // success and its cooldown is not over.
  lemma {:induction false} DeniedIff(threshold: nat, reset: real, events: seq<Event>, m: ModelId, now: real)
    ensures var b := Play(NewBreaker(threshold, reset), events);
            !Allow(b, m, now).0 <==> FailuresSince(events, m) >= threshold && now - OpenedAt(b, m) < reset
  {
    CountsAgree(threshold, reset, events, m);
    hide Play, FailuresSince;
  }

  // A call to the tripped model was let through and no outcome of it recorded since.
  ghost predicate Probed(threshold: nat, reset: real, events: seq<Event>, m: ModelId) {
    exists a: nat :: ProbeAt(threshold, reset, events, m, a)
  }

  ghost predicate ProbeAt(threshold: nat, reset: real, events: seq<Event>, m: ModelId, a: nat) {
    && a < |events| && events[a].AllowAt? && events[a].m == m
    && FailuresSince(events[..a], m) >= threshold
    && Allow(Play(NewBreaker(threshold, reset), events[..a]), m, events[a].now).0
    && forall j :: a < j < |events| && events[j].m == m ==> events[j].AllowAt?
  }

  lemma {:induction false} ProbedNext(threshold: nat, reset: real, front: seq<Event>, e: Event, m: ModelId)
    ensures Probed(threshold, reset, front + [e], m) <==>
      || (Probed(threshold, reset, front, m) && (e.m != m || e.AllowAt?))
      || (e.AllowAt? && e.m == m && FailuresSince(front, m) >= threshold
          && Allow(Play(NewBreaker(threshold, reset), front), m, e.now).0)
  {
    hide Play, Allow, FailuresSince;
    var events := front + [e];
    assert events[..|front|] == front && events[|front|] == e;
    forall a: nat | a < |front|
      ensures events[..a] == front[..a] && events[a] == front[a]
      ensures ProbeAt(threshold, reset, events, m, a) <==>
        ProbeAt(threshold, reset, front, m, a) && (e.m != m || e.AllowAt?)
    {
      assert events[..a] == front[..a];
      if ProbeAt(threshold, reset, events, m, a) {
        forall j | a < j < |front| && front[j].m == m ensures front[j].AllowAt? { assert events[j] == front[j]; }
      }
    }
    if Probed(threshold, reset, events, m) {
      var a: nat :| ProbeAt(threshold, reset, events, m, a);
    }
    if e.AllowAt? && e.m == m && FailuresSince(front, m) >= threshold
      && Allow(Play(NewBreaker(threshold, reset), front), m, e.now).0 {
      assert ProbeAt(threshold, reset, events, m, |front|);
    }
  }

  // The opening on record is failure i: it is the one with which the failures since the last success
  // reached the threshold, or that of a probe, and no success or failed probe came after it.
  ghost predicate OpenedBy(threshold: nat, reset: real, events: seq<Event>, m: ModelId, i: nat) {
    && i < |events| && events[i].FailAt? && events[i].m == m
    && (FailuresSince(events[..i + 1], m) == threshold || Probed(threshold, reset, events[..i], m))
    && forall j: nat :: i < j < |events| && events[j].m == m ==>
         events[j].AllowAt? || (events[j].FailAt? && !Probed(threshold, reset, events[..j], m))
  }

  lemma {:induction false} OpenedByStays(threshold: nat, reset: real, front: seq<Event>, e: Event, m: ModelId, i: nat)
    requires OpenedBy(threshold, reset, front, m, i)
    requires e.m == m ==> e.AllowAt? || (e.FailAt? && !Probed(threshold, reset, front, m))
    ensures OpenedBy(threshold, reset, front + [e], m, i)
  {
    hide Probed, FailuresSince;
    var events := front + [e];
    assert events[..|front|] == front && events[..i + 1] == front[..i + 1] && events[..i] == front[..i];
    forall j: nat | i < j < |front| ensures events[..j] == front[..j] && events[j] == front[j] {}
  }

  lemma {:induction false} OpenedByLast(threshold: nat, reset: real, front: seq<Event>, e: Event, m: ModelId)
    requires e.FailAt? && e.m == m
    requires FailuresSince(front, m) + 1 == threshold || Probed(threshold, reset, front, m)
    ensures OpenedBy(threshold, reset, front + [e], m, |front|)
  {
    hide Probed;
    var events := front + [e];
    assert events[..|front|] == front && events[..|front| + 1] == events;
  }

  lemma {:induction false} PlayNext(start: Breaker, events: seq<Event>, e: Event)
    ensures Play(start, events + [e]) == Step(Play(start, events), e)
  {
    assert (events + [e])[..|events|] == events;
    hide Step;
  }

  lemma {:induction false} SinceNext(events: seq<Event>, e: Event, m: ModelId)
    ensures FailuresSince(events + [e], m) ==
      if e.m != m || e.AllowAt? then FailuresSince(events, m)
      else if e.SucceedAt? then 0
      else FailuresSince(events, m) + 1
  {
    assert (events + [e])[..|events|] == events;
  }

  lemma {:induction false} HalfOpenIffProbed(threshold: nat, reset: real, events: seq<Event>, m: ModelId)
    ensures m in Play(NewBreaker(threshold, reset), events).halfOpen <==> Probed(threshold, reset, events, m)
  {
    if events != [] {
      hide Play, Probed, FailuresSince;
      var front, e := events[..|events| - 1], events[|events| - 1];
      assert events == front + [e];
      HalfOpenIffProbed(threshold, reset, front, m);
      ProbedNext(threshold, reset, front, e, m);
      PlayNext(NewBreaker(threshold, reset), front, e);
      CountsAgree(threshold, reset, front, m);
    }
  }

  // The opening instant of every trace: there is one exactly when the failures since the last success
  // have reached the threshold, and it is the time of the failure that opened the circuit.
  lemma {:induction false} OpeningIs(threshold: nat, reset: real, events: seq<Event>, m: ModelId)
    requires threshold >= 1
    ensures var b := Play(NewBreaker(threshold, reset), events);
            && (m in b.openedAt <==> FailuresSince(events, m) >= threshold)
            && (m in b.openedAt ==>
                  exists i: nat :: OpenedBy(threshold, reset, events, m, i) && b.openedAt[m] == events[i].now)
  {
    if events != [] {
      hide Play, Probed, FailuresSince, OpenedBy;
      var front, e := events[..|events| - 1], events[|events| - 1];
      assert events == front + [e];
      OpeningIs(threshold, reset, front, m);
      HalfOpenIffProbed(threshold, reset, front, m);
      PlayNext(NewBreaker(threshold, reset), front, e);
      SinceNext(front, e, m);
      CountsAgree(threshold, reset, front, m);
      OpeningNext(threshold, reset, front, e, m);
    } else {
      assert FailuresSince([], m) == 0;
    }
  }

  lemma {:induction false} OpeningNext(threshold: nat, reset: real, front: seq<Event>, e: Event, m: ModelId)
    requires threshold >= 1
    requires var b := Play(NewBreaker(threshold, reset), front);
             && (m in b.openedAt <==> FailuresSince(front, m) >= threshold)
             && (Failures(b, m) < threshold ==> Failures(b, m) == FailuresSince(front, m))
             && (Failures(b, m) >= threshold ==> FailuresSince(front, m) >= threshold)
             && (m in b.halfOpen <==> Probed(threshold, reset, front, m))
             && (m in b.openedAt ==>
                   exists i: nat :: OpenedBy(threshold, reset, front, m, i) && b.openedAt[m] == front[i].now)
    ensures var after := Step(Play(NewBreaker(threshold, reset), front), e);
            m in after.openedAt ==>
              exists i: nat :: OpenedBy(threshold, reset, front + [e], m, i) &&
                after.openedAt[m] == (front + [e])[i].now
  {
    hide Play, Probed, FailuresSince;
    var b := Play(NewBreaker(threshold, reset), front);
    var after := Step(b, e);
    if e.FailAt? && e.m == m && (m in b.halfOpen || FailuresSince(front, m) + 1 == threshold) {
      OpenedByLast(threshold, reset, front, e, m);
      assert (front + [e])[|front|] == e;
    } else if m in after.openedAt {
      assert m in b.openedAt;
      var i: nat :| OpenedBy(threshold, reset, front, m, i) && b.openedAt[m] == front[i].now;
      OpenedByStays(threshold, reset, front, e, m, i);
      assert (front + [e])[i] == front[i];
    }
  }

  // What `state` reports after every trace.
  lemma {:induction false} StateIs(threshold: nat, reset: real, events: seq<Event>, m: ModelId, now: real)
    requires threshold >= 1
    ensures var b := Play(NewBreaker(threshold, reset), events);
            var failed := FailuresSince(events, m) >= threshold;
            && (StateOf(b, m, now) == Closed <==> !failed)
            && (StateOf(b, m, now) == HalfOpen <==>
                  failed && (Probed(threshold, reset, events, m) || now - OpenedAt(b, m) >= reset))
  {
    CountsAgree(threshold, reset, events, m);
    HalfOpenIffProbed(threshold, reset, events, m);
    hide Play, FailuresSince, Probed;
  }

  // In particular two calls in a row reach a half-open model, where a single probe was announced.
  lemma SecondProbeAdmitted()
    ensures exists m, events, now ::
      var b := Play(NewBreaker(1, 30.0), events);
      && Chronological(events, 0.0) && StateOf(b, m, now) == HalfOpen
      && Allow(b, m, now).0 && Allow(Allow(b, m, now).1, m, now).0
  {
    var m := ModelId("m");
    var events := [FailAt(m, 0.0)];
    assert Play(NewBreaker(1, 30.0), []) == NewBreaker(1, 30.0) && events[..0] == [];
    var b := Play(NewBreaker(1, 30.0), events);
    assert b == Fail(NewBreaker(1, 30.0), m, 0.0);
    assert Chronological(events, 0.0) && StateOf(b, m, 30.0) == HalfOpen;
  }
}
