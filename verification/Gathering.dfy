/** One round of workers: `asyncio.gather` over coroutines that share a counting semaphore, as a
    state machine over start and finish steps in any order (nvidia_smartroute/parkour/scheduler.py). */
module Gathering {
  import opened Wrappers

  datatype Event = Start(i: nat) | Finish(i: nat)

  datatype Phase<+T> = Waiting | Running | Returned(value: T)

  // `active` and `peak` are the scheduler's counters.
  datatype Round<+T> = Round(phases: seq<Phase<T>>, active: nat, peak: nat)

  function Initial<T>(n: nat): Round<T> {
    Round(seq(n, i => Waiting), 0, 0)
  }

  // A coroutine starts when the semaphore has a permit left; it finishes with its own outcome.
  predicate Enabled<T(==)>(s: Round<T>, e: Event, permits: nat, outcomes: seq<Option<T>>) {
    match e
    case Start(i) => i < |s.phases| && s.phases[i].Waiting? && s.active < permits
    case Finish(i) => i < |s.phases| && s.phases[i].Running? && s.active > 0 && i < |outcomes| && outcomes[i].Some?
  }

  function Step<T>(s: Round<T>, e: Event, permits: nat, outcomes: seq<Option<T>>): Round<T>
    requires Enabled(s, e, permits, outcomes)
  {
    match e
    case Start(i) =>
      Round(s.phases[i := Running], s.active + 1, if s.active + 1 > s.peak then s.active + 1 else s.peak)
    case Finish(i) => Round(s.phases[i := Returned(outcomes[i].value)], s.active - 1, s.peak)
  }

  // The state the schedule leads to, if every step in it was possible.
  ghost function After<T>(n: nat, schedule: seq<Event>, permits: nat, outcomes: seq<Option<T>>): Option<Round<T>> {
    if schedule == [] then Some(Initial(n))
    else
      var before := After(n, schedule[..|schedule| - 1], permits, outcomes);
      var e := schedule[|schedule| - 1];
      if before.Some? && Enabled(before.value, e, permits, outcomes) then Some(Step(before.value, e, permits, outcomes))
      else None
  }

  ghost function CountRunning<T>(phases: seq<Phase<T>>): nat {
    if phases == [] then 0
    else CountRunning(phases[..|phases| - 1]) + if phases[|phases| - 1].Running? then 1 else 0
  }

  lemma {:induction false} CountUpdate<T>(phases: seq<Phase<T>>, i: nat, p: Phase<T>)
    requires i < |phases|
    ensures CountRunning(phases[i := p])
      == CountRunning(phases) - (if phases[i].Running? then 1 else 0) + if p.Running? then 1 else 0
  {
    var front := phases[..|phases| - 1];
    if i < |front| {
      CountUpdate(front, i, p);
      assert phases[i := p][..|phases| - 1] == front[i := p];
    } else {
      assert phases[i := p][..|phases| - 1] == front;
    }
  }

  lemma {:induction false} CountBound<T>(phases: seq<Phase<T>>)
    ensures CountRunning(phases) <= |phases|
    ensures CountRunning(phases) == |phases| ==> forall i :: 0 <= i < |phases| ==> phases[i].Running?
    ensures CountRunning(phases) == 0 ==> forall i :: 0 <= i < |phases| ==> !phases[i].Running?
  {
    if phases != [] {
      CountBound(phases[..|phases| - 1]);
    }
  }

  ghost predicate Sound<T>(n: nat, s: Round<T>, permits: nat, outcomes: seq<Option<T>>) {
    && |s.phases| == |outcomes| == n
    && s.active == CountRunning(s.phases)
    && s.active <= s.peak <= permits && s.peak <= n
    && ((exists i :: 0 <= i < n && !s.phases[i].Waiting?) ==> s.peak >= 1)
    && forall i :: 0 <= i < n && s.phases[i].Returned? ==> outcomes[i] == Some(s.phases[i].value)
  }

  lemma {:induction false} StepSound<T>(n: nat, s: Round<T>, e: Event, permits: nat, outcomes: seq<Option<T>>)
    requires Sound(n, s, permits, outcomes) && Enabled(s, e, permits, outcomes)
    ensures Sound(n, Step(s, e, permits, outcomes), permits, outcomes)
  {
    CountUpdate(s.phases, e.i, if e.Start? then Running else Returned(outcomes[e.i].value));
    CountBound(Step(s, e, permits, outcomes).phases);
    hide CountRunning;
  }

  lemma {:induction false} InitialSound<T>(n: nat, permits: nat, outcomes: seq<Option<T>>)
    requires |outcomes| == n
    ensures Sound(n, Initial<T>(n), permits, outcomes)
  {
    NoneRunning(Initial<T>(n).phases);
  }

  lemma {:induction false} NoneRunning<T>(phases: seq<Phase<T>>)
    requires forall i :: 0 <= i < |phases| ==> !phases[i].Running?
    ensures CountRunning(phases) == 0
  {
    if phases != [] {
      NoneRunning(phases[..|phases| - 1]);
    }
  }

  // At any moment of any schedule: at most `permits` workers are active, and every returned
  // result is the coroutine's own outcome.
  lemma {:induction false} EveryScheduleSound<T>(n: nat, schedule: seq<Event>, permits: nat, outcomes: seq<Option<T>>)
    requires |outcomes| == n && After(n, schedule, permits, outcomes).Some?
    ensures Sound(n, After(n, schedule, permits, outcomes).value, permits, outcomes)
  {
    if schedule == [] {
      InitialSound(n, permits, outcomes);
    } else {
      var front, e := schedule[..|schedule| - 1], schedule[|schedule| - 1];
      EveryScheduleSound(n, front, permits, outcomes);
      StepSound(n, After(n, front, permits, outcomes).value, e, permits, outcomes);
    }
  }

  lemma {:induction false} AfterNext<T>(n: nat, schedule: seq<Event>, e: Event, permits: nat, outcomes: seq<Option<T>>)
    ensures var (before, after) := (After(n, schedule, permits, outcomes), After(n, schedule + [e], permits, outcomes));
            after == if before.Some? && Enabled(before.value, e, permits, outcomes)
                     then Some(Step(before.value, e, permits, outcomes)) else None
  {
    assert (schedule + [e])[..|schedule|] == schedule;
    hide Enabled, Step;
  }

  // The number of workers active after the first k steps.
  ghost function ActiveAfter<T>(n: nat, schedule: seq<Event>, permits: nat, outcomes: seq<Option<T>>, k: nat): nat
    requires k <= |schedule|
  {
    var s := After(n, schedule[..k], permits, outcomes);
    if s.Some? then CountRunning(s.value.phases) else 0
  }

  // The recorded peak is the largest number of workers active at any point of the schedule.
  lemma {:induction false} PeakIsMost<T>(n: nat, schedule: seq<Event>, permits: nat, outcomes: seq<Option<T>>)
    returns (at: nat)
    requires |outcomes| == n && After(n, schedule, permits, outcomes).Some?
    ensures var peak := After(n, schedule, permits, outcomes).value.peak;
            && at <= |schedule| && ActiveAfter(n, schedule, permits, outcomes, at) == peak
            && forall k: nat :: k <= |schedule| ==> ActiveAfter(n, schedule, permits, outcomes, k) <= peak
  {
    if schedule == [] {
      NoneRunning(Initial<T>(n).phases);
      at := 0;
    } else {
      var front, e := schedule[..|schedule| - 1], schedule[|schedule| - 1];
      assert front + [e] == schedule;
      AfterNext(n, front, e, permits, outcomes);
      at := PeakIsMost(n, front, permits, outcomes);
      StepPeak(n, front, e, permits, outcomes);
      hide ActiveAfter, After;
      forall k: nat | k <= |front|
        ensures ActiveAfter(n, schedule, permits, outcomes, k) == ActiveAfter(n, front, permits, outcomes, k)
      {
        ActivePrefix(n, front, e, permits, outcomes, k);
      }
      var (s, t) := (After(n, front, permits, outcomes).value, After(n, schedule, permits, outcomes).value);
      if t.active > s.peak { at := |schedule|; }
    }
  }

  lemma {:induction false} ActivePrefix<T>(n: nat, front: seq<Event>, e: Event, permits: nat,
                                           outcomes: seq<Option<T>>, k: nat)
    requires k <= |front|
    ensures ActiveAfter(n, front + [e], permits, outcomes, k) == ActiveAfter(n, front, permits, outcomes, k)
  {
    assert (front + [e])[..k] == front[..k];
    hide After, CountRunning;
  }

  lemma {:induction false} StepPeak<T>(n: nat, front: seq<Event>, e: Event, permits: nat, outcomes: seq<Option<T>>)
    requires |outcomes| == n && After(n, front + [e], permits, outcomes).Some?
    requires After(n, front, permits, outcomes).Some?
    ensures var (s, t) := (After(n, front, permits, outcomes).value, After(n, front + [e], permits, outcomes).value);
            && t.peak == (if t.active > s.peak then t.active else s.peak)
            && ActiveAfter(n, front + [e], permits, outcomes, |front| + 1) == t.active
  {
    AfterNext(n, front, e, permits, outcomes);
    EveryScheduleSound(n, front, permits, outcomes);
    EveryScheduleSound(n, front + [e], permits, outcomes);
    assert (front + [e])[..|front| + 1] == front + [e];
    hide After, CountRunning;
  }

  ghost predicate Finished<T>(s: Round<T>) {
    forall i :: 0 <= i < |s.phases| ==> s.phases[i].Returned?
  }

  // Two complete schedules return the same results, whatever the interleaving and the permits.
  lemma {:induction false} Confluence<T>(n: nat, a: seq<Event>, b: seq<Event>, p: nat, q: nat, outcomes: seq<Option<T>>)
    requires |outcomes| == n
    requires After(n, a, p, outcomes).Some? && Finished(After(n, a, p, outcomes).value)
    requires After(n, b, q, outcomes).Some? && Finished(After(n, b, q, outcomes).value)
    ensures After(n, a, p, outcomes).value.phases == After(n, b, q, outcomes).value.phases
  {
    EveryScheduleSound(n, a, p, outcomes);
    EveryScheduleSound(n, b, q, outcomes);
    var s, t := After(n, a, p, outcomes).value, After(n, b, q, outcomes).value;
    forall i | 0 <= i < n ensures s.phases[i] == t.phases[i] {
      assert s.phases[i].Returned? && t.phases[i].Returned?;
    }
  }

  // A coroutine that can go on: it gets a permit, or returns or raises.
  predicate CanStep<T>(phases: seq<Phase<T>>, active: nat, permits: nat, i: nat) {
    i < |phases| && ((phases[i].Waiting? && active < permits) || (phases[i].Running? && active > 0))
  }

  // With at least one permit a round that is not finished can always take a step.
  lemma {:induction false} NeverStuck<T>(n: nat, s: Round<T>, permits: nat, outcomes: seq<Option<T>>)
    requires Sound(n, s, permits, outcomes) && !Finished(s) && permits >= 1
    ensures exists i: nat :: CanStep(s.phases, s.active, permits, i)
    ensures (forall i :: 0 <= i < n ==> outcomes[i].Some?) ==> exists e :: Enabled(s, e, permits, outcomes)
  {
    CountBound(s.phases);
    if s.active > 0 {
      NoneRunningOrSome(s.phases);
      var i: nat :| i < n && s.phases[i].Running?;
      assert CanStep(s.phases, s.active, permits, i);
      assert outcomes[i].Some? ==> Enabled(s, Finish(i), permits, outcomes);
    } else {
      var i: nat :| i < n && !s.phases[i].Returned?;
      assert CanStep(s.phases, s.active, permits, i);
      assert Enabled(s, Start(i), permits, outcomes);
    }
  }

  lemma NoneRunningOrSome<T>(phases: seq<Phase<T>>)
    requires CountRunning(phases) > 0
    ensures exists i :: 0 <= i < |phases| && phases[i].Running?
  {
    if forall i :: 0 <= i < |phases| ==> !phases[i].Running? {
      NoneRunning(phases);
    }
  }

  // When the round is no wider than the semaphore, whoever has not started can start at once.
  lemma {:induction false} NobodyWaits<T>(n: nat, schedule: seq<Event>, permits: nat, outcomes: seq<Option<T>>, i: nat)
    requires |outcomes| == n && n <= permits && After(n, schedule, permits, outcomes).Some?
    requires i < n && |After(n, schedule, permits, outcomes).value.phases| == n
    requires After(n, schedule, permits, outcomes).value.phases[i].Waiting?
    ensures Enabled(After(n, schedule, permits, outcomes).value, Start(i), permits, outcomes)
  {
    EveryScheduleSound(n, schedule, permits, outcomes);
    CountBound(After(n, schedule, permits, outcomes).value.phases);
  }
}
