/** The pool of API keys with per-key rolling budgets and cooldowns (nvidia_smartroute/keypool.py). */
module KeyPools {
  import opened Wrappers
  import opened SlidingWindow

  datatype Key = Key(secret: string)

  // The pool's fields as a value; every key has a queue and a cooldown instant.
  datatype Pool = Pool(keys: seq<Key>, limit: nat, window: real, usage: map<Key, seq<real>>, cooldown: map<Key, real>)

  ghost predicate Formed(p: Pool) {
    p.limit >= 1 && forall k :: k in p.keys ==> k in p.usage && k in p.cooldown
  }

  function EmptyPool(keys: seq<Key>, limit: nat, window: real): Pool {
    Pool(keys, limit, window, map k | k in keys :: [], map k | k in keys :: 0.0)
  }

  // Pruning the queues of the listed keys.
  function PruneKeys(usage: map<Key, seq<real>>, keys: seq<Key>, cutoff: real): map<Key, seq<real>> {
    map k | k in usage :: if k in keys then Prune(usage[k], cutoff) else usage[k]
  }

  predicate Available(p: Pool, k: Key, now: real)
    requires k in p.usage && k in p.cooldown
  {
    p.cooldown[k] <= now && |p.usage[k]| < p.limit
  }

  // The first key with the most budget left among the first n.
  function BestOf(p: Pool, n: nat, now: real): (best: Option<Key>)
    requires n <= |p.keys| && Formed(p)
    ensures best.Some? ==> best.value in p.keys[..n] && Available(p, best.value, now)
  {
    if n == 0 then None
    else
      var best, k := BestOf(p, n - 1, now), p.keys[n - 1];
      assert k in p.keys && p.keys[..n] == p.keys[..n - 1] + [k];
      if Available(p, k, now) && (best == None || |p.usage[k]| < |p.usage[best.value]|) then Some(k) else best
  }

  // When an unavailable key is expected back: the end of its cooldown, or its oldest use plus the window.
  function FreeAt(p: Pool, k: Key, now: real): real
    requires k in p.usage && k in p.cooldown && p.limit >= 1 && !Available(p, k, now)
  {
    if p.cooldown[k] > now then p.cooldown[k] else p.usage[k][0] + p.window
  }

  function SoonestOf(p: Pool, n: nat, now: real): Option<real>
    requires n <= |p.keys| && Formed(p)
  {
    if n == 0 then None
    else
      var soonest, k := SoonestOf(p, n - 1, now), p.keys[n - 1];
      assert k in p.keys;
      if Available(p, k, now) then soonest
      else if soonest == None || FreeAt(p, k, now) < soonest.value then Some(FreeAt(p, k, now))
      else soonest
  }

  datatype Grant = Grant(key: Option<Key>, wait: real)

  function PrunedPool(p: Pool, now: real): Pool {
    p.(usage := PruneKeys(p.usage, p.keys, now - p.window))
  }

  // `acquire` at time `now`: the answer and the pool it leaves.
  function Acquire(p: Pool, now: real): (Grant, Pool)
    requires Formed(p)
  {
    if p.keys == [] then (Grant(None, 0.0), p)
    else
      var q := PrunedPool(p, now);
      var best, soonest := BestOf(q, |q.keys|, now), SoonestOf(q, |q.keys|, now);
      if best.Some? then
        (Grant(best, 0.0), q.(usage := q.usage[best.value := q.usage[best.value] + [now]]))
      else
        (Grant(None, if soonest == None then q.window
                     else if soonest.value - now > 0.0 then soonest.value - now else 0.0), q)
  }

  // `record_cooldown` at time `now`.
  function Cool(p: Pool, k: Key, seconds: real, now: real): Pool {
    if k !in p.cooldown then p
    else
      var until := now + if seconds > 0.0 then seconds else 0.0;
      p.(cooldown := p.cooldown[k := if until > p.cooldown[k] then until else p.cooldown[k]])
  }

  lemma {:induction false} PruneNext(usage: map<Key, seq<real>>, keys: seq<Key>, i: nat, cutoff: real)
    requires i < |keys| && forall k :: k in keys ==> k in usage
    ensures keys[i] in PruneKeys(usage, keys[..i], cutoff)
    ensures var before := PruneKeys(usage, keys[..i], cutoff);
            && Prune(before[keys[i]], cutoff) == PruneKeys(usage, keys, cutoff)[keys[i]]
            && before[keys[i] := Prune(before[keys[i]], cutoff)] == PruneKeys(usage, keys[..i + 1], cutoff)
  {
    var k := keys[i];
    assert k in keys && keys[..i + 1] == keys[..i] + [k];
    PruneTwice(usage[k], cutoff);
    hide Prune;
  }

  lemma PruneEnds(p: Pool, now: real)
    requires Formed(p)
    ensures PruneKeys(p.usage, p.keys[..0], now - p.window) == p.usage
    ensures PruneKeys(p.usage, p.keys[..|p.keys|], now - p.window) == PrunedPool(p, now).usage
    ensures Formed(PrunedPool(p, now))
  {
    assert p.keys[..|p.keys|] == p.keys;
    hide Prune;
  }

  lemma {:induction false} ScanStep(p: Pool, i: nat, now: real)
    requires Formed(p) && i < |p.keys|
    ensures var (k, best, soonest) := (p.keys[i], BestOf(p, i, now), SoonestOf(p, i, now));
            && BestOf(p, i + 1, now) ==
                 (if Available(p, k, now) && (best == None || |p.usage[k]| < |p.usage[best.value]|) then Some(k)
                  else best)
            && SoonestOf(p, i + 1, now) ==
                 if Available(p, k, now) then soonest
                 else if soonest == None || FreeAt(p, k, now) < soonest.value then Some(FreeAt(p, k, now)) else soonest
    ensures BestOf(p, 0, now) == None && SoonestOf(p, 0, now) == None
  {
  }

  class KeyPool {
    const keys: seq<Key>
    const limit: nat
    const window: real
    var usage: map<Key, seq<real>>
    var cooldownUntil: map<Key, real>

    constructor (keys: seq<Key>, limit: nat, window: real)
      ensures Model() == EmptyPool(keys, limit, window)
    {
      this.keys, this.limit, this.window := keys, limit, window;
      usage := map k | k in keys :: [];
      cooldownUntil := map k | k in keys :: 0.0;
    }

    function Model(): Pool
      reads this
    {
      Pool(keys, limit, window, usage, cooldownUntil)
    }

    method PruneKey(key: Key, now: real)
      requires key in usage
      modifies `usage
      ensures usage == old(usage)[key := Prune(old(usage)[key], now - window)]
    {
      var pruned := PruneHead(usage[key], now - window);
      usage := usage[key := pruned];
    }

    method AcquireKey(now: real) returns (grant: Grant)
      requires Formed(Model())
      modifies `usage
      ensures (grant, Model()) == Acquire(old(Model()), now) && Formed(Model())
    {
      hide Prune, PruneKeys, BestOf, SoonestOf;
      if keys == [] {
        return Grant(None, 0.0);
      }
      ghost var target := PrunedPool(Model(), now);
      PruneEnds(Model(), now);
      ScanStep(target, 0, now);
      var best: Option<Key> := None;
      var bestRemaining: int := -1;
      var soonest: Option<real> := None;
      for i := 0 to |keys|
        invariant usage == PruneKeys(old(usage), keys[..i], now - window)
        invariant best == BestOf(target, i, now) && soonest == SoonestOf(target, i, now)
        invariant bestRemaining == if best == None then -1 else limit - |target.usage[best.value]|
      {
        var key := keys[i];
        assert key in keys;
        PruneNext(old(usage), keys, i, now - window);
        ScanStep(target, i, now);
        PruneKey(key, now);
        var cooldown := cooldownUntil[key];
        if cooldown > now {
          soonest := if soonest == None || cooldown < soonest.value then Some(cooldown) else soonest;
        } else {
          var remaining := limit - |usage[key]|;
          if remaining > 0 {
            if remaining > bestRemaining {
              bestRemaining, best := remaining, Some(key);
            }
          } else {
            var freeAt := usage[key][0] + window;
            soonest := if soonest == None || freeAt < soonest.value then Some(freeAt) else soonest;
          }
        }
      }
      if best.Some? {
        usage := usage[best.value := usage[best.value] + [now]];
        grant := Grant(best, 0.0);
      } else {
        var wait := if soonest == None then window
                    else if soonest.value - now > 0.0 then soonest.value - now else 0.0;
        grant := Grant(None, wait);
      }
    }

    method RecordCooldown(key: Key, seconds: real, now: real)
      modifies `cooldownUntil
      ensures Model() == Cool(old(Model()), key, seconds, now)
      ensures old(Formed(Model())) ==> Formed(Model())
    {
      if key in cooldownUntil {
        var until := now + if seconds > 0.0 then seconds else 0.0;
        cooldownUntil := cooldownUntil[key := if until > cooldownUntil[key] then until else cooldownUntil[key]];
      }
    }
  }

  // ---- Which key ----

  // Key i has at least the budget of every available key, and more than the ones listed before it.
  ghost predicate FirstFullest(p: Pool, n: nat, now: real, i: int)
    requires n <= |p.keys| && Formed(p) && 0 <= i < n
  {
    forall j :: 0 <= j < n && Available(p, p.keys[j], now) && p.keys[j] != p.keys[i] ==>
      |p.usage[p.keys[i]]| <= |p.usage[p.keys[j]]| && (j < i ==> |p.usage[p.keys[i]]| < |p.usage[p.keys[j]]|)
  }

  lemma {:induction false} FullestStep(p: Pool, n: nat, now: real, i: nat)
    requires n < |p.keys| && Formed(p) && i < n && FirstFullest(p, n, now, i) && Available(p, p.keys[i], now)
    ensures var k := p.keys[n];
            if Available(p, k, now) && |p.usage[k]| < |p.usage[p.keys[i]]| then FirstFullest(p, n + 1, now, n)
            else FirstFullest(p, n + 1, now, i)
  {
    hide Formed, Available;
  }

  lemma {:induction false} BestIsFirstAndFullest(p: Pool, n: nat, now: real)
    requires n <= |p.keys| && Formed(p)
    ensures BestOf(p, n, now) == None <==> forall i :: 0 <= i < n ==> !Available(p, p.keys[i], now)
    ensures BestOf(p, n, now).Some? ==>
      exists i :: 0 <= i < n && p.keys[i] == BestOf(p, n, now).value && FirstFullest(p, n, now, i)
  {
    if n > 0 {
      var last := n - 1;
      BestIsFirstAndFullest(p, last, now);
      hide Formed, Available;
      if BestOf(p, last, now).Some? {
        var i :| 0 <= i < last && p.keys[i] == BestOf(p, last, now).value && FirstFullest(p, last, now, i);
        FullestStep(p, last, now, i);
        assert p.keys[if BestOf(p, n, now) == BestOf(p, last, now) then i else last] == BestOf(p, n, now).value;
      } else if Available(p, p.keys[last], now) {
        assert FirstFullest(p, n, now, last);
      }
    }
  }

  // ---- Whole runs ----

  datatype Event = AcquireAt(now: real) | CoolAt(key: Key, seconds: real, now: real)

  datatype Record = Record(key: Key, time: real)

  // The pool together with the log of all grants.
  datatype Run = Run(pool: Pool, log: seq<Record>)

  ghost function Step(r: Run, e: Event): (after: Run)
    requires Formed(r.pool)
    ensures Formed(after.pool) && after.pool.keys == r.pool.keys
    ensures after.pool.limit == r.pool.limit && after.pool.window == r.pool.window
  {
    match e
    case AcquireAt(now) =>
      var (grant, pool) := Acquire(r.pool, now);
      Run(pool, if grant.key.Some? then r.log + [Record(grant.key.value, now)] else r.log)
    case CoolAt(key, seconds, now) => Run(Cool(r.pool, key, seconds, now), r.log)
  }

  ghost function Play(start: Run, events: seq<Event>): (after: Run)
    requires Formed(start.pool)
    ensures Formed(after.pool) && after.pool.keys == start.pool.keys
    ensures after.pool.limit == start.pool.limit && after.pool.window == start.pool.window
  {
    if events == [] then start else Step(Play(start, events[..|events| - 1]), events[|events| - 1])
  }

  ghost predicate Chronological(events: seq<Event>) {
    forall i, j :: 0 <= i < j < |events| ==> events[i].now <= events[j].now
  }

  ghost function Times(log: seq<Record>, k: Key): seq<real> {
    if log == [] then []
    else Times(log[..|log| - 1], k) + if log[|log| - 1].key == k then [log[|log| - 1].time] else []
  }

  // Each queue tracks the grants of its key.
  ghost predicate Ledgered(r: Run, now: real)
    requires Formed(r.pool)
  {
    && (forall k :: k in r.pool.keys ==> Tracks(Times(r.log, k), r.pool.usage[k], now, r.pool.limit, r.pool.window))
    && forall i :: 0 <= i < |r.log| ==> r.log[i].key in r.pool.keys
  }

  lemma StepLedgered(r: Run, e: Event, before: real)
    requires Formed(r.pool) && Ledgered(r, before) && before <= e.now
    ensures Ledgered(Step(r, e), e.now)
  {
    hide Tracks, BestOf, SoonestOf, Prune;
    var after := Step(r, e);
    if e.AcquireAt? { GrantFacts(r.pool, e.now); }
    forall k | k in r.pool.keys
      ensures Tracks(Times(after.log, k), after.pool.usage[k], e.now, r.pool.limit, r.pool.window)
    {
      var h, q := Times(r.log, k), r.pool.usage[k];
      Later(h, q, before, e.now, r.pool.limit, r.pool.window);
      PruneTracks(h, q, before, e.now, r.pool.limit, r.pool.window);
      AdmitWhen(h, Prune(q, e.now - r.pool.window), e.now, r.pool.limit, r.pool.window);
      if e.AcquireAt? && r.pool.keys != [] && Acquire(r.pool, e.now).0.key.Some? {
        TimesAppend(r.log, Record(Acquire(r.pool, e.now).0.key.value, e.now), k);
      }
    }
  }

  lemma TimesAppend(log: seq<Record>, r: Record, k: Key)
    ensures Times(log + [r], k) == if r.key == k then Times(log, k) + [r.time] else Times(log, k)
  {
    assert (log + [r])[..|log|] == log;
  }

  lemma {:induction false} Later(h: seq<real>, q: seq<real>, before: real, now: real, limit: nat, window: real)
    requires Tracks(h, q, before, limit, window) && before <= now
    ensures Tracks(h, q, now, limit, window)
  {
  }

  lemma {:induction false} AdmitWhen(h: seq<real>, q: seq<real>, now: real, limit: nat, window: real)
    requires Tracks(h, q, now, limit, window)
    ensures |q| < limit ==> Tracks(h + [now], q + [now], now, limit, window)
  {
    if |q| < limit { AdmitTracks(h, q, now, limit, window); }
  }

  // A granted key was neither cooling nor saturated.
  lemma GrantFacts(p: Pool, now: real)
    requires Formed(p)
    ensures var k := Acquire(p, now).0.key;
            k.Some? ==>
              k.value in p.keys && p.cooldown[k.value] <= now && |Prune(p.usage[k.value], now - p.window)| < p.limit
  {
    if p.keys != [] {
      var q := PrunedPool(p, now);
      assert q.keys[..|q.keys|] == q.keys;
    }
  }

  lemma {:induction false} EveryRunLedgered(start: Run, events: seq<Event>, begin: real, now: real)
    requires Formed(start.pool) && Ledgered(start, begin) && Chronological(events)
    requires begin <= now && forall i :: 0 <= i < |events| ==> begin <= events[i].now <= now
    ensures Ledgered(Play(start, events), now)
  {
    hide Tracks;
    if events != [] {
      var front, e := events[..|events| - 1], events[|events| - 1];
      EveryRunLedgered(start, front, begin, e.now);
      StepLedgered(Play(start, front), e, e.now);
    }
    LedgeredLater(Play(start, events), if events == [] then begin else events[|events| - 1].now, now);
  }

  lemma LedgeredLater(r: Run, before: real, now: real)
    requires Formed(r.pool) && Ledgered(r, before) && before <= now
    ensures Ledgered(r, now)
  {
    hide Tracks;
    forall k | k in r.pool.keys ensures Tracks(Times(r.log, k), r.pool.usage[k], now, r.pool.limit, r.pool.window) {
      Later(Times(r.log, k), r.pool.usage[k], before, now, r.pool.limit, r.pool.window);
    }
  }

  ghost function Fresh(keys: seq<Key>, limit: nat, window: real): Run {
    Run(EmptyPool(keys, limit, window), [])
  }

  lemma {:induction false} FreshLedgered(keys: seq<Key>, limit: nat, window: real, begin: real)
    requires limit >= 1
    ensures Formed(Fresh(keys, limit, window).pool) && Ledgered(Fresh(keys, limit, window), begin)
  {
    EmptyTracks(begin, limit, window);
    hide Tracks;
  }

  // Over any run, every closed interval of the window's length holds at most `limit` grants of a key ...
  lemma {:induction false} KeyWindowSafe(keys: seq<Key>, limit: nat, window: real, events: seq<Event>, k: Key,
                                         from: real)
    requires limit >= 1 && Chronological(events) && k in keys
    ensures Formed(Fresh(keys, limit, window).pool)
    ensures CountIn(Times(Play(Fresh(keys, limit, window), events).log, k), from, from + window) <= limit
  {
    var start := Fresh(keys, limit, window);
    var begin, now := Bounds(events);
    FreshLedgered(keys, limit, window, begin);
    EveryRunLedgered(start, events, begin, now);
    WindowSafe(Times(Play(start, events).log, k), limit, window, from);
  }

  lemma Bounds(events: seq<Event>) returns (begin: real, now: real)
    requires Chronological(events)
    ensures begin <= now && forall i :: 0 <= i < |events| ==> begin <= events[i].now <= now
  {
    if events == [] {
      begin, now := 0.0, 0.0;
    } else {
      begin, now := events[0].now, events[|events| - 1].now;
    }
  }

  ghost function CountLog(log: seq<Record>, from: real, until: real): nat {
    if log == [] then 0
    else CountLog(log[..|log| - 1], from, until) + if from <= log[|log| - 1].time <= until then 1 else 0
  }

  ghost function SumOver(log: seq<Record>, ks: seq<Key>, from: real, until: real): nat {
    if ks == [] then 0
    else SumOver(log, ks[..|ks| - 1], from, until) + CountIn(Times(log, ks[|ks| - 1]), from, until)
  }

  lemma {:induction false} SumGrows(log: seq<Record>, ks: seq<Key>, r: Record, from: real, until: real)
    ensures SumOver(log + [r], ks, from, until)
      >= SumOver(log, ks, from, until) + if r.key in ks && from <= r.time <= until then 1 else 0
  {
    if ks != [] {
      hide Times, CountIn;
      var front, k := ks[..|ks| - 1], ks[|ks| - 1];
      SumGrows(log, front, r, from, until);
      TimesAppend(log, r, k);
      CountNext(Times(log, k), r.time, from, until);
      assert r.key in ks <==> r.key in front || r.key == k;
    }
  }

  lemma CountNext(h: seq<real>, t: real, from: real, until: real)
    ensures CountIn(h + [t], from, until) == CountIn(h, from, until) + if from <= t <= until then 1 else 0
  {
    assert (h + [t])[..|h|] == h;
  }

  lemma {:induction false} LogBelowSum(log: seq<Record>, ks: seq<Key>, from: real, until: real)
    requires forall i :: 0 <= i < |log| ==> log[i].key in ks
    ensures CountLog(log, from, until) <= SumOver(log, ks, from, until)
  {
    if log != [] {
      var front, last := log[..|log| - 1], log[|log| - 1];
      LogBelowSum(front, ks, from, until);
      SumGrows(front, ks, last, from, until);
      assert front + [last] == log;
    }
  }

  lemma {:induction false} SumBounded(log: seq<Record>, ks: seq<Key>, from: real, until: real, limit: nat)
    requires forall k :: k in ks ==> CountIn(Times(log, k), from, until) <= limit
    ensures SumOver(log, ks, from, until) <= |ks| * limit
  {
    if ks != [] {
      hide Times, CountIn;
      SumBounded(log, ks[..|ks| - 1], from, until, limit);
      assert |ks| * limit == (|ks| - 1) * limit + limit;
    }
  }

  // ... and at most keys times limit grants of the whole pool.
  lemma {:induction false} PoolWindowSafe(keys: seq<Key>, limit: nat, window: real, events: seq<Event>, from: real)
    requires limit >= 1 && Chronological(events)
    ensures Formed(Fresh(keys, limit, window).pool)
    ensures CountLog(Play(Fresh(keys, limit, window), events).log, from, from + window) <= |keys| * limit
  {
    hide *;
    FreshLedgered(keys, limit, window, 0.0);
    var log := Play(Fresh(keys, limit, window), events).log;
    forall k | k in keys ensures CountIn(Times(log, k), from, from + window) <= limit {
      KeyWindowSafe(keys, limit, window, events, k, from);
    }
    GrantsAreKeys(keys, limit, window, events);
    LogBelowSum(log, keys, from, from + window);
    SumBounded(log, keys, from, from + window, limit);
  }

  lemma {:induction false} GrantsAreKeys(keys: seq<Key>, limit: nat, window: real, events: seq<Event>)
    requires limit >= 1 && Chronological(events)
    ensures Formed(Fresh(keys, limit, window).pool)
    ensures forall i :: 0 <= i < |Play(Fresh(keys, limit, window), events).log| ==>
      Play(Fresh(keys, limit, window), events).log[i].key in keys
  {
    hide Tracks, Play;
    var begin, now := Bounds(events);
    FreshLedgered(keys, limit, window, begin);
    EveryRunLedgered(Fresh(keys, limit, window), events, begin, now);
  }

  // ---- Cooldowns ----

  lemma {:induction false} CooldownKept(start: Run, events: seq<Event>, i: nat)
    requires Formed(start.pool) && i < |events| && events[i].CoolAt? && events[i].key in start.pool.keys
    ensures Play(start, events).pool.cooldown[events[i].key]
      >= events[i].now + if events[i].seconds > 0.0 then events[i].seconds else 0.0
    decreases |events|
  {
    var front, e := events[..|events| - 1], events[|events| - 1];
    if i < |front| {
      CooldownKept(start, front, i);
    }
    hide Play, BestOf, SoonestOf, PruneKeys;
  }

  // When the rest that an event records ends.
  function RestEnd(e: Event): real
    requires e.CoolAt?
  {
    e.now + if e.seconds > 0.0 then e.seconds else 0.0
  }

  // A key's cooldown after a run is the latest end recorded for that very key, or what it was before.
  lemma {:induction false} CooldownIs(start: Run, events: seq<Event>, k: Key)
    requires Formed(start.pool) && k in start.pool.keys
    ensures k in start.pool.cooldown && k in Play(start, events).pool.cooldown
    ensures var end := Play(start, events).pool.cooldown[k];
            && end >= start.pool.cooldown[k]
            && (forall e :: e in events && e.CoolAt? && e.key == k ==> end >= RestEnd(e))
            && (end == start.pool.cooldown[k] ||
                exists e :: e in events && e.CoolAt? && e.key == k && end == RestEnd(e))
  {
    if events != [] {
      var front, e := events[..|events| - 1], events[|events| - 1];
      CooldownIs(start, front, k);
      assert forall x :: x in events <==> x in front || x == e;
      hide Play, BestOf, SoonestOf, PruneKeys;
    }
  }

  // No key is granted before the end of a cooldown recorded earlier in the run.
  lemma {:induction false} CooldownRespected(start: Run, events: seq<Event>, i: nat, now: real)
    requires Formed(start.pool) && i < |events| && events[i].CoolAt? && events[i].key in start.pool.keys
    requires Acquire(Play(start, events).pool, now).0.key == Some(events[i].key)
    ensures now >= events[i].now + if events[i].seconds > 0.0 then events[i].seconds else 0.0
  {
    CooldownKept(start, events, i);
    GrantFacts(Play(start, events).pool, now);
  }

  // ---- Wait hints ----

  // Until T every key is cooling, or full with an oldest entry still inside the window.
  ghost predicate Blocked(p: Pool, T: real)
    requires Formed(p)
  {
    forall k :: k in p.keys ==>
      p.cooldown[k] >= T || (|p.usage[k]| >= p.limit && p.usage[k][0] + p.window >= T)
  }

  lemma {:induction false} SoonestIsLeast(p: Pool, n: nat, now: real)
    requires n <= |p.keys| && Formed(p) && forall i :: 0 <= i < n ==> !Available(p, p.keys[i], now)
    ensures SoonestOf(p, n, now) == None <==> n == 0
    ensures forall i :: 0 <= i < n ==> SoonestOf(p, n, now).value <= FreeAt(p, p.keys[i], now)
    ensures n > 0 ==> exists i :: 0 <= i < n && SoonestOf(p, n, now).value == FreeAt(p, p.keys[i], now)
  {
    if n > 0 {
      SoonestIsLeast(p, n - 1, now);
      var k := p.keys[n - 1];
      if SoonestOf(p, n, now) != Some(FreeAt(p, k, now)) {
        var i :| 0 <= i < n - 1 && SoonestOf(p, n - 1, now).value == FreeAt(p, p.keys[i], now);
      }
    }
  }

  lemma FreeLater(p: Pool, k: Key, now: real)
    requires Formed(p) && k in p.keys && !Available(PrunedPool(p, now), k, now)
    ensures FreeAt(PrunedPool(p, now), k, now) >= now
  {
    PruneDrops(p.usage[k], now - p.window);
  }

  // `acquire` refuses only when every key is cooling or saturated, and its wait reaches exactly
  // to the first instant at which one of them is due.
  lemma RefusalBlocks(p: Pool, now: real)
    requires Formed(p) && p.keys != [] && Acquire(p, now).0.key == None
    ensures var (grant, q) := Acquire(p, now);
            && q == PrunedPool(p, now) && grant.wait >= 0.0
            && (forall k :: k in q.keys ==> !Available(q, k, now) && FreeAt(q, k, now) >= now + grant.wait)
            && (exists k :: k in q.keys && !Available(q, k, now) && FreeAt(q, k, now) == now + grant.wait)
            && Blocked(q, now + grant.wait)
  {
    var q := PrunedPool(p, now);
    BestIsFirstAndFullest(q, |q.keys|, now);
    SoonestIsLeast(q, |q.keys|, now);
    hide PruneKeys, BestOf, SoonestOf;
    var soonest := SoonestOf(q, |q.keys|, now).value;
    var i :| 0 <= i < |q.keys| && soonest == FreeAt(q, q.keys[i], now);
    FreeLater(p, q.keys[i], now);
    forall k | k in q.keys ensures !Available(q, k, now) && FreeAt(q, k, now) >= soonest {
      var j :| 0 <= j < |q.keys| && q.keys[j] == k;
    }
  }

  lemma NothingToPrune(q: seq<real>, cutoff: real)
    ensures q == [] || q[0] >= cutoff ==> Prune(q, cutoff) == q
  {
  }

  lemma BlockedStays(r: Run, e: Event, T: real)
    requires Formed(r.pool) && Blocked(r.pool, T) && e.now < T
    ensures Step(r, e).log == r.log && Blocked(Step(r, e).pool, T)
  {
    if e.AcquireAt? && r.pool.keys != [] {
      var q := PrunedPool(r.pool, e.now);
      forall k | k in q.keys ensures !Available(q, k, e.now) && (q.cooldown[k] >= T || q.usage[k] == r.pool.usage[k]) {
        if r.pool.cooldown[k] < T {
          NothingToPrune(r.pool.usage[k], e.now - r.pool.window);
        }
      }
      BestIsFirstAndFullest(q, |q.keys|, e.now);
      hide PruneKeys, BestOf, SoonestOf;
    }
  }

  // Whatever is tried before now + wait, no acquire succeeds.
  lemma {:induction false} NoGrantBeforeHint(r: Run, events: seq<Event>, T: real)
    requires Formed(r.pool) && Blocked(r.pool, T) && forall i :: 0 <= i < |events| ==> events[i].now < T
    ensures Play(r, events).log == r.log && Blocked(Play(r, events).pool, T)
  {
    if events != [] {
      var front, e := events[..|events| - 1], events[|events| - 1];
      NoGrantBeforeHint(r, front, T);
      BlockedStays(Play(r, front), e, T);
    }
  }

  lemma GrantIff(p: Pool, now: real)
    requires Formed(p)
    ensures Acquire(p, now).0.key.Some? <==>
      exists k :: k in p.keys && p.cooldown[k] <= now && |Prune(p.usage[k], now - p.window)| < p.limit
  {
    if p.keys != [] {
      var q := PrunedPool(p, now);
      BestIsFirstAndFullest(q, |q.keys|, now);
      hide BestOf, SoonestOf;
      if k :| k in p.keys && p.cooldown[k] <= now && |Prune(p.usage[k], now - p.window)| < p.limit {
        var i :| 0 <= i < |q.keys| && q.keys[i] == k;
        assert Available(q, q.keys[i], now);
      }
      GrantFacts(p, now);
    }
  }

  // At now + wait itself an acquire succeeds exactly when some cooldown ends at that very instant
  // on a key with room in its window: a saturated key is still full then.
  lemma AtTheHint(p: Pool, now: real)
    requires Formed(p) && p.keys != [] && Acquire(p, now).0.key == None
    ensures var (grant, q) := Acquire(p, now);
            var T := now + grant.wait;
            && Formed(q)
            && (Acquire(q, T).0.key.Some? <==>
                 exists k :: k in q.keys && q.cooldown[k] > now && q.cooldown[k] == T &&
                   |Prune(q.usage[k], T - q.window)| < q.limit)
  {
    RefusalBlocks(p, now);
    var (grant, q) := Acquire(p, now);
    var T := now + grant.wait;
    GrantIff(q, T);
    hide Acquire, PrunedPool;
    forall k | k in q.keys && q.cooldown[k] <= T && |Prune(q.usage[k], T - q.window)| < q.limit
      ensures q.cooldown[k] > now && q.cooldown[k] == T
    {
      NothingToPrune(q.usage[k], T - q.window);
    }
  }

  // The promise that a wait of that length frees a key fails for a single key that is saturated.
  lemma HintTooShort()
    ensures exists keys, events, now ::
      var p := Play(Fresh(keys, 1, 10.0), events).pool;
      && Chronological(events) && keys != [] && Acquire(p, now).0.key == None && Formed(Acquire(p, now).1)
      && Acquire(Acquire(p, now).1, now + Acquire(p, now).0.wait).0.key == None
  {
    var k := Key("k");
    var events := [AcquireAt(0.0)];
    FirstGrant(k);
    var p := Play(Fresh([k], 1, 10.0), events).pool;
    GrantIff(p, 5.0);
    RefusalBlocks(p, 5.0);
    NothingToPrune([0.0], -5.0);
    var q := Acquire(p, 5.0).1;
    assert q.usage[k] == [0.0] && FreeAt(q, k, 5.0) == 10.0;
    AtTheHint(p, 5.0);
    assert Chronological(events);
  }

  lemma FirstGrant(k: Key)
    ensures Formed(Fresh([k], 1, 10.0).pool)
    ensures Play(Fresh([k], 1, 10.0), [AcquireAt(0.0)]).pool == Pool([k], 1, 10.0, map[k := [0.0]], map[k := 0.0])
  {
    var start := Fresh([k], 1, 10.0);
    assert [AcquireAt(0.0)][..0] == [] && Play(start, []) == start;
    var q := PrunedPool(start.pool, 0.0);
    assert start.pool.cooldown == map[k := 0.0] && q.usage == map[k := []];
    ScanStep(q, 0, 0.0);
    assert Acquire(start.pool, 0.0).0.key == Some(k);
    assert q.usage[k] + [0.0] == [0.0];
    assert Acquire(start.pool, 0.0).1.usage == map[k := [0.0]];
    assert Play(start, [AcquireAt(0.0)]) == Step(start, AcquireAt(0.0));
  }

  // Any later instant is enough when the hint came from a saturated key.
  lemma RoomAfterHint(p: Pool, now: real, k: Key, t: real)
    requires Formed(p) && p.keys != [] && Acquire(p, now).0.key == None && k in p.keys
    requires var (grant, q) := Acquire(p, now);
             q.cooldown[k] <= now && |q.usage[k]| == q.limit && q.usage[k][0] + q.window == now + grant.wait < t
    ensures Formed(Acquire(p, now).1) && Acquire(Acquire(p, now).1, t).0.key.Some?
  {
    RefusalBlocks(p, now);
    var q := Acquire(p, now).1;
    FullUntil(q.usage[k], q.limit, q.window, t);
    GrantIff(q, t);
  }
}
