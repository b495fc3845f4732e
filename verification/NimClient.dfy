/** Key rotation, retries and backoff of one upstream request (nvidia_smartroute/gateway/nim_client.py). */
module NimClient {
  import opened Wrappers
  import opened KeyPools

  // A reply with the number of a Retry-After header made of digits, or a connection that broke.
  datatype Upstream = Reply(status: nat, retryAfter: Option<nat>, body: string) | Broken

  datatype Failure = Exhausted | Transport | HttpError(status: nat) | NoResponse

  datatype Config = Config(retries: nat, backoffBase: real, window: real)

  // One post: the key sent, the pool event that granted it, and the pool event number at the reply.
  datatype Post = Post(key: Key, granted: nat, reply: Upstream, answered: nat)

  // What the request did: its posts, its sleeps, and every event at the pool so far, including
  // those of other requests.
  datatype Journal = Journal(posts: seq<Post>, sleeps: seq<Nap>, events: seq<Event>)

  // One sleep: after the pool event that refused a key, or after the post that is to be repeated.
  datatype Nap = KeyWait(event: nat, seconds: real) | Backoff(post: nat, seconds: real)

  // The upstream's answers, the instant of each pool event, and what other requests do to the
  // pool while this one waits for the i-th time.
  datatype World = World(reply: (nat, Key) -> Upstream, clock: nat -> real, others: nat -> seq<Event>)

  const UNAUTHENTICATED := Key("")

  function Power(n: nat): real {
    if n == 0 then 1.0 else 2.0 * Power(n - 1)
  }

  // The header's seconds, or exponential backoff.
  function Delay(c: Config, reply: Upstream, attempt: nat): real
    requires reply.Reply?
  {
    if reply.retryAfter.Some? then reply.retryAfter.value as real else c.backoffBase * Power(attempt)
  }

  // How long a key rests after a 429: `delay or per_key_rate_window`.
  function Rest(c: Config, delay: real): real {
    if delay != 0.0 then delay else c.window
  }

  lemma {:induction false} RestExact(c: Config, reply: Upstream, attempt: nat)
    requires reply.Reply?
    ensures var rest := Rest(c, Delay(c, reply, attempt));
            && (reply.retryAfter == Some(0) ==> rest == c.window)
            && (reply.retryAfter.Some? && reply.retryAfter.value > 0 ==> rest == reply.retryAfter.value as real)
            && (reply.retryAfter == None && c.backoffBase * Power(attempt) != 0.0 ==>
              rest == c.backoffBase * Power(attempt))
            && (reply.retryAfter == None && c.backoffBase * Power(attempt) == 0.0 ==> rest == c.window)
  {
    hide Power;
  }

  ghost function After(p: Pool, events: seq<Event>): (q: Pool)
    requires Formed(p)
    ensures Formed(q) && q.keys == p.keys && q.limit == p.limit && q.window == p.window
  {
    Play(Run(p, []), events).pool
  }

  // A suspension point: other requests use the pool.
  ghost function Wait(w: World, p: Pool, j: Journal): (Pool, Journal)
    requires Formed(p)
  {
    var events := w.others(|j.posts| + |j.sleeps|);
    (After(p, events), j.(events := j.events + events))
  }

  ghost function Sleep(w: World, p: Pool, j: Journal, nap: Nap): (Pool, Journal)
    requires Formed(p)
  {
    var (q, k) := Wait(w, p, j);
    (q, k.(sleeps := k.sleeps + [nap]))
  }

  // `_acquire_key` from its attempt-th try on.
  ghost function Seize(c: Config, w: World, p: Pool, j: Journal, attempt: nat)
    : (r: (Result<Key, Failure>, Pool, Journal))
    requires Formed(p)
    ensures Formed(r.1) && r.1.keys == p.keys
    decreases c.retries + 1 - attempt
  {
    if attempt > c.retries then (Err(Exhausted), p, j)
    else
      var now := w.clock(|j.events|);
      var ((grant, q), k) := (Acquire(p, now), j.(events := j.events + [AcquireAt(now)]));
      AcquireForms(p, now);
      if grant.key.Some? then (Ok(grant.key.value), q, k)
      else if attempt < c.retries then
        var (q', k') := Sleep(w, q, k, KeyWait(|j.events|, if grant.wait < 5.0 then grant.wait else 5.0));
        Seize(c, w, q', k', attempt + 1)
      else (Err(Exhausted), q, k)
  }

  ghost function Cooled(c: Config, w: World, p: Pool, j: Journal, k: Key, delay: real): (r: (Pool, Journal))
    requires Formed(p)
    ensures Formed(r.0) && r.0.keys == p.keys
  {
    var now := w.clock(|j.events|);
    (Cool(p, k, Rest(c, delay), now), j.(events := j.events + [CoolAt(k, Rest(c, delay), now)]))
  }

  // What follows a reply: the request is done, or the next attempt is made.
  ghost function Judge(c: Config, w: World, p: Pool, j: Journal, key: Key, reply: Upstream, attempt: nat)
    : (r: (Option<Result<string, Failure>>, Pool, Journal))
    requires Formed(p)
    ensures Formed(r.1) && r.1.keys == p.keys
  {
    if reply.Broken? then (Some(Err(Transport)), p, j)
    else if reply.status < 400 then (Some(Ok(reply.body)), p, j)
    else
      var delay := Delay(c, reply, attempt);
      var (q, k) := if reply.status == 429 && key != UNAUTHENTICATED then Cooled(c, w, p, j, key, delay) else (p, j);
      if attempt < c.retries && reply.status == 429 then (None, q, k)
      else if attempt < c.retries && reply.status >= 500 then
        var (q', k') := Sleep(w, q, k, Backoff(attempt, delay));
        (None, q', k')
      else (Some(Err(HttpError(reply.status))), q, k)
  }

  // `_post_with_retries` from its attempt-th post on.
  ghost function Request(c: Config, w: World, p: Pool, j: Journal, attempt: nat)
    : (r: (Result<string, Failure>, Pool, Journal))
    requires Formed(p)
    ensures Formed(r.1) && r.1.keys == p.keys
    decreases c.retries + 1 - attempt
  {
    if attempt > c.retries then (Err(NoResponse), p, j)
    else
      var (key, p1, j1) := if p.keys == [] then (Ok(UNAUTHENTICATED), p, j) else Seize(c, w, p, j, 0);
      if key.Err? then (Err(key.error), p1, j1)
      else
        var (p2, j2) := Posted(w, p1, j1, key.value);
        var (verdict, p3, j3) := Judge(c, w, p2, j2, key.value, w.reply(|j1.posts|, key.value), attempt);
        if verdict.Some? then (verdict.value, p3, j3) else Request(c, w, p3, j3, attempt + 1)
  }

  // Posting with a key and waiting for the reply.
  ghost function Posted(w: World, p: Pool, j: Journal, key: Key): (r: (Pool, Journal))
    requires Formed(p)
    ensures Formed(r.0) && r.0.keys == p.keys && |r.1.posts| == |j.posts| + 1
  {
    var (q, k) := Wait(w, p, j);
    var granted := if |j.events| > 0 then |j.events| - 1 else 0;
    (q, k.(posts := k.posts + [Post(key, granted, w.reply(|j.posts|, key), |k.events|)]))
  }

  lemma AcquireForms(p: Pool, now: real)
    requires Formed(p)
    ensures Formed(Acquire(p, now).1) && Acquire(p, now).1.keys == p.keys
    ensures After(p, [AcquireAt(now)]) == Acquire(p, now).1
  {
    var r := Run(p, []);
    assert Play(r, []) == r && [AcquireAt(now)][..0] == [];
    assert Play(r, [AcquireAt(now)]) == Step(r, AcquireAt(now));
  }

  class NIMClient {
    const pool: KeyPool
    const config: Config

    constructor (pool: KeyPool, config: Config)
      ensures this.pool == pool && this.config == config
    {
      this.pool, this.config := pool, config;
    }

    // What other requests do to the pool while this one is suspended.
    method Suspend(w: World, j: Journal) returns (k: Journal)
      requires Formed(pool.Model())
      modifies pool
      ensures (pool.Model(), k) == Wait(w, old(pool.Model()), j)
      ensures Formed(pool.Model())
    {
      hide Acquire, Cool, Formed;
      var events := w.others(|j.posts| + |j.sleeps|);
      for i := 0 to |events|
        invariant Formed(pool.Model()) && pool.Model() == After(old(pool.Model()), events[..i])
      {
        AfterNext(old(pool.Model()), events, i);
        match events[i]
        case AcquireAt(now) => var _ := pool.AcquireKey(now);
        case CoolAt(key, seconds, now) => pool.RecordCooldown(key, seconds, now);
      }
      assert events[..|events|] == events;
      k := j.(events := j.events + events);
    }

    method AcquireKey(w: World, j: Journal) returns (r: Result<Key, Failure>, k: Journal)
      requires Formed(pool.Model()) && pool.keys != []
      modifies pool
      ensures (r, pool.Model(), k) == Seize(config, w, old(pool.Model()), j, 0)
      ensures Formed(pool.Model())
    {
      hide Acquire, After, Formed;
      k := j;
      for attempt := 0 to config.retries + 1
        invariant Formed(pool.Model())
        invariant Seize(config, w, old(pool.Model()), j, 0) == Seize(config, w, pool.Model(), k, attempt)
      {
        var now := w.clock(|k.events|);
        var grant := pool.AcquireKey(now);
        k := k.(events := k.events + [AcquireAt(now)]);
        if grant.key.Some? {
          return Ok(grant.key.value), k;
        }
        if attempt < config.retries {
          var nap := KeyWait(|k.events| - 1, if grant.wait < 5.0 then grant.wait else 5.0);
          k := Suspend(w, k);
          k := k.(sleeps := k.sleeps + [nap]);
          continue;
        }
        return Err(Exhausted), k;
      }
      r := Err(Exhausted);
    }

    // `http_client.post`: others use the pool until the reply is there.
    method Send(w: World, j: Journal, key: Key) returns (k: Journal)
      requires Formed(pool.Model())
      modifies pool
      ensures (pool.Model(), k) == Posted(w, old(pool.Model()), j, key) && Formed(pool.Model())
      ensures |k.posts| == |j.posts| + 1 && k.posts[|j.posts|].reply == w.reply(|j.posts|, key)
    {
      hide After, Formed;
      var granted := if |j.events| > 0 then |j.events| - 1 else 0;
      var reply := w.reply(|j.posts|, key);
      k := Suspend(w, j);
      k := k.(posts := k.posts + [Post(key, granted, reply, |k.events|)]);
    }

    method PostWithRetries(w: World, j: Journal) returns (r: Result<string, Failure>, k: Journal)
      requires Formed(pool.Model())
      modifies pool
      ensures (r, pool.Model(), k) == Request(config, w, old(pool.Model()), j, 0)
    {
      hide Acquire, After, Formed, Seize, Cool, Power, Posted;
      k := j;
      for attempt := 0 to config.retries + 1
        invariant Formed(pool.Model())
        invariant Request(config, w, old(pool.Model()), j, 0) == Request(config, w, pool.Model(), k, attempt)
      {
        var key := UNAUTHENTICATED;
        if pool.keys != [] {
          var seized;
          seized, k := AcquireKey(w, k);
          if seized.Err? {
            return Err(seized.error), k;
          }
          key := seized.value;
        }
        k := Send(w, k, key);
        var response := k.posts[|k.posts| - 1].reply;
        if response.Broken? {
          return Err(Transport), k;
        }
        if response.status < 400 {
          return Ok(response.body), k;
        }
        var delay := if response.retryAfter.Some? then response.retryAfter.value as real
                     else config.backoffBase * Power(attempt);
        assert delay == Delay(config, response, attempt);
        ghost var p2, k2 := pool.Model(), k;
        if response.status == 429 {
          if key != UNAUTHENTICATED {
            var now := w.clock(|k.events|);
            pool.RecordCooldown(key, if delay != 0.0 then delay else config.window, now);
            k := k.(events := k.events + [CoolAt(key, Rest(config, delay), now)]);
          }
          assert key != UNAUTHENTICATED ==> (pool.Model(), k) == Cooled(config, w, p2, k2, key, delay);
          assert key == UNAUTHENTICATED ==> (pool.Model(), k) == (p2, k2);
          if attempt < config.retries {
            assert Judge(config, w, p2, k2, key, response, attempt) == (None, pool.Model(), k);
            continue;
          }
        } else if response.status >= 500 && attempt < config.retries {
          k := Suspend(w, k);
          k := k.(sleeps := k.sleeps + [Backoff(attempt, delay)]);
          continue;
        }
        return Err(HttpError(response.status)), k;
      }
      r := Err(NoResponse);
    }
  }

  lemma {:induction false} PoolOnly(a: Run, b: Run, events: seq<Event>)
    requires Formed(a.pool) && a.pool == b.pool
    ensures Play(a, events).pool == Play(b, events).pool
  {
    if events != [] {
      PoolOnly(a, b, events[..|events| - 1]);
      hide Acquire, Cool, Formed;
    }
  }

  lemma {:induction false} AfterNext(p: Pool, events: seq<Event>, i: nat)
    requires Formed(p) && i < |events|
    ensures var before := After(p, events[..i]);
            After(p, events[..i + 1]) == match events[i] {
              case AcquireAt(now) => Acquire(before, now).1
              case CoolAt(key, seconds, now) => Cool(before, key, seconds, now)
            }
  {
    hide Acquire, Cool, Formed;
    assert events[..i + 1][..i] == events[..i];
  }

  // ---- How long a request can take ----

  function Total(sleeps: seq<Nap>): real {
    if sleeps == [] then 0.0 else Total(sleeps[..|sleeps| - 1]) + sleeps[|sleeps| - 1].seconds
  }

  lemma TotalAppend(sleeps: seq<Nap>, x: Nap)
    ensures Total(sleeps + [x]) == Total(sleeps) + x.seconds
  {
    assert (sleeps + [x])[..|sleeps|] == sleeps;
  }

  lemma {:induction false} SeizeBound(c: Config, w: World, p: Pool, j: Journal, attempt: nat)
    requires Formed(p) && attempt <= c.retries
    ensures var k := Seize(c, w, p, j, attempt).2;
            k.posts == j.posts && Total(k.sleeps) <= Total(j.sleeps) + 5.0 * (c.retries - attempt) as real
    decreases c.retries - attempt
  {
    hide Acquire, After, Total, Formed;
    var now := w.clock(|j.events|);
    var ((grant, q), k) := (Acquire(p, now), j.(events := j.events + [AcquireAt(now)]));
    AcquireForms(p, now);
    if grant.key == None && attempt < c.retries {
      var nap := KeyWait(|j.events|, if grant.wait < 5.0 then grant.wait else 5.0);
      var (q', k') := Sleep(w, q, k, nap);
      TotalAppend(k.sleeps, nap);
      SeizeBound(c, w, q', k', attempt + 1);
    }
  }

  lemma {:induction false} PowerPositive(n: nat)
    ensures Power(n) >= 1.0
  {
    if n > 0 { PowerPositive(n - 1); }
  }

  lemma {:induction false} DelayBound(c: Config, reply: Upstream, attempt: nat, header: real)
    requires reply.Reply? && c.backoffBase >= 0.0 && header >= 0.0
    requires reply.retryAfter.Some? ==> reply.retryAfter.value as real <= header
    ensures Delay(c, reply, attempt) <= header + c.backoffBase * Power(attempt)
  {
    PowerPositive(attempt);
    assert c.backoffBase * Power(attempt) >= 0.0;
  }

  lemma {:induction false} JudgeBound(c: Config, w: World, p: Pool, j: Journal, key: Key, reply: Upstream,
                                      attempt: nat, header: real)
    requires Formed(p) && c.backoffBase >= 0.0 && header >= 0.0
    requires reply.Reply? && reply.retryAfter.Some? ==> reply.retryAfter.value as real <= header
    ensures var (verdict, _, k) := Judge(c, w, p, j, key, reply, attempt);
            && k.posts == j.posts
            && (verdict.Some? ==> k.sleeps == j.sleeps && verdict != Some(Err(NoResponse)))
            && (verdict == None ==> attempt < c.retries)
            && (verdict == None ==> Total(k.sleeps) <= Total(j.sleeps) + header + c.backoffBase * Power(attempt))
  {
    hide After, Total, Formed, Cool, Power, Delay;
    if reply.Reply? {
      var delay := Delay(c, reply, attempt);
      DelayBound(c, reply, attempt, header);
      TotalAppend(j.sleeps, Backoff(attempt, delay));
      NonNegative(c, attempt);
    }
  }

  lemma {:induction false} NonNegative(c: Config, attempt: nat)
    requires c.backoffBase >= 0.0
    ensures c.backoffBase * Power(attempt) >= 0.0
  {
    PowerPositive(attempt);
  }

  // The seconds still to come from the attempt-th try on: waits for a key, and backoff.
  function Budget(c: Config, attempt: nat, header: real): real
    requires attempt <= c.retries
  {
    5.0 * (c.retries * (c.retries + 1 - attempt)) as real
    + header * (c.retries - attempt) as real
    + (c.backoffBase * Power(c.retries) - c.backoffBase * Power(attempt))
  }

  lemma {:induction false} BudgetNext(c: Config, attempt: nat, header: real)
    requires attempt < c.retries && c.backoffBase >= 0.0 && header >= 0.0
    ensures Budget(c, attempt, header)
      == 5.0 * c.retries as real + header + c.backoffBase * Power(attempt) + Budget(c, attempt + 1, header)
  {
    var R, a := c.retries, attempt;
    assert R * (R + 1 - a) == R + R * (R - a);
    assert header * (R - a) as real == header + header * (R - (a + 1)) as real;
    assert c.backoffBase * Power(a + 1) == 2.0 * (c.backoffBase * Power(a));
  }

  ghost predicate HeadersWithin(w: World, header: real) {
    header >= 0.0 && forall i, k :: w.reply(i, k).Reply? && w.reply(i, k).retryAfter.Some? ==>
      w.reply(i, k).retryAfter.value as real <= header
  }

  lemma {:induction false} RequestFrom(c: Config, w: World, p: Pool, j: Journal, attempt: nat, header: real)
    requires Formed(p) && attempt <= c.retries && c.backoffBase >= 0.0 && HeadersWithin(w, header)
    ensures var (r, _, k) := Request(c, w, p, j, attempt);
            && |k.posts| <= |j.posts| + c.retries + 1 - attempt && r != Err(NoResponse)
            && Total(k.sleeps) <= Total(j.sleeps) + Budget(c, attempt, header)
    decreases c.retries - attempt
  {
    hide After, Total, Formed, Seize, Judge, Budget, Power;
    var (key, p1, j1) := if p.keys == [] then (Ok(UNAUTHENTICATED), p, j) else Seize(c, w, p, j, 0);
    SeizeBound(c, w, p, j, 0);
    SeizeNeverEmpty(c, w, p, j, 0);
    BudgetLast(c, attempt, header);
    if key.Ok? {
      var (p2, j2) := Posted(w, p1, j1, key.value);
      var reply := w.reply(|j1.posts|, key.value);
      var (verdict, p3, j3) := Judge(c, w, p2, j2, key.value, reply, attempt);
      JudgeBound(c, w, p2, j2, key.value, reply, attempt, header);
      if verdict == None {
        BudgetNext(c, attempt, header);
        RequestFrom(c, w, p3, j3, attempt + 1, header);
      }
    }
  }

  lemma {:induction false} BudgetLast(c: Config, attempt: nat, header: real)
    requires attempt <= c.retries && c.backoffBase >= 0.0 && header >= 0.0
    ensures Budget(c, attempt, header) >= 5.0 * c.retries as real
    decreases c.retries - attempt
  {
    if attempt < c.retries {
      BudgetNext(c, attempt, header);
      BudgetLast(c, attempt + 1, header);
      NonNegative(c, attempt);
    }
  }

  lemma {:induction false} SeizeNeverEmpty(c: Config, w: World, p: Pool, j: Journal, attempt: nat)
    requires Formed(p)
    ensures Seize(c, w, p, j, attempt).0.Err? ==> Seize(c, w, p, j, attempt).0.error == Exhausted
    decreases c.retries + 1 - attempt
  {
    hide Acquire, After, Formed;
    if attempt < c.retries {
      var now := w.clock(|j.events|);
      var ((grant, q), k) := (Acquire(p, now), j.(events := j.events + [AcquireAt(now)]));
      AcquireForms(p, now);
      var (q', k') := Sleep(w, q, k, KeyWait(|j.events|, if grant.wait < 5.0 then grant.wait else 5.0));
      SeizeNeverEmpty(c, w, q', k', attempt + 1);
    }
  }

  const IDLE := Journal([], [], [])

  // A request makes at most R + 1 posts, and sleeps at most base * (2^R - 1) + 5 * R * (R + 1)
  // seconds plus R times the largest Retry-After it is sent; it always ends with an answer or a
  // reported error.
  lemma RequestBound(c: Config, w: World, p: Pool, header: real)
    requires Formed(p) && c.backoffBase >= 0.0 && HeadersWithin(w, header)
    ensures var (r, _, k) := Request(c, w, p, IDLE, 0);
            && |k.posts| <= c.retries + 1 && r != Err(NoResponse)
            && Total(k.sleeps) <= c.backoffBase * (Power(c.retries) - 1.0) + 5.0 * (c.retries * (c.retries + 1)) as real
                                  + header * c.retries as real
  {
    hide Request, HeadersWithin, Formed, Budget, Power;
    RequestFrom(c, w, p, IDLE, 0, header);
    BudgetAtStart(c, header);
    assert Total([]) == 0.0;
  }

  lemma {:induction false} BudgetAtStart(c: Config, header: real)
    ensures Budget(c, 0, header)
      == c.backoffBase * (Power(c.retries) - 1.0) + 5.0 * (c.retries * (c.retries + 1)) as real
         + header * c.retries as real
  {
    OneLess(c.backoffBase, Power(c.retries));
  }

  lemma {:induction false} OneLess(b: real, x: real)
    ensures b * (x - 1.0) == b * x - b
  {
  }

  // ---- What a request does and answers ----

  // A reply after which the request is made again while attempts are left.
  predicate Retryable(reply: Upstream) {
    reply.Reply? && (reply.status == 429 || reply.status >= 500)
  }

  // The number of backoff sleeps after post q.
  ghost function Backoffs(sleeps: seq<Nap>, q: nat): nat {
    if sleeps == [] then 0
    else
      var nap := sleeps[|sleeps| - 1];
      Backoffs(sleeps[..|sleeps| - 1], q) + if nap.Backoff? && nap.post == q then 1 else 0
  }

  // The sleep after a post lasts as long as its Retry-After says, or else base * 2^attempt.
  ghost predicate BackoffOf(c: Config, j: Journal, nap: Nap)
    requires nap.Backoff?
  {
    && nap.post < |j.posts| && j.posts[nap.post].reply.Reply?
    && var header := j.posts[nap.post].reply.retryAfter;
    && (header.Some? ==> nap.seconds == header.value as real)
    && (header == None ==> nap.seconds == c.backoffBase * Power(nap.post))
  }

  // One backoff sleep for each of the first n posts that got a 5xx with attempts left, none else.
  ghost predicate BackedOff(c: Config, j: Journal, n: nat) {
    && (forall i :: 0 <= i < |j.sleeps| && j.sleeps[i].Backoff? ==> BackoffOf(c, j, j.sleeps[i]))
    && (forall q: nat :: Backoffs(j.sleeps, q) ==
          if q < n && q < |j.posts| && q < c.retries && j.posts[q].reply.Reply? &&
            j.posts[q].reply.status >= 500 then 1 else 0)
  }

  // What the replies say about the answer: every post but the last was to be repeated, and the
  // answer is that of the last one, or that no key was to be had for the next.
  ghost predicate Answered(c: Config, w: World, r: Result<string, Failure>, j: Journal) {
    var n := |j.posts|;
    && n <= c.retries + 1
    && (forall i: nat :: i < n ==> j.posts[i].reply == w.reply(i, j.posts[i].key))
    && (forall i: nat :: i + 1 < n ==> Retryable(j.posts[i].reply))
    && (r == Err(Exhausted) <==> n == 0 || (Retryable(j.posts[n - 1].reply) && n <= c.retries))
    && (n > 0 ==> AnswerOf(c, r, j.posts[n - 1].reply, n))
  }

  ghost predicate AnswerOf(c: Config, r: Result<string, Failure>, last: Upstream, n: nat) {
    && (r == Err(Transport) <==> last.Broken?)
    && (r.Ok? <==> last.Reply? && last.status < 400)
    && (r.Ok? ==> r.value == last.body)
    && (r.Err? && r.error.HttpError? <==> last.Reply? && last.status >= 400 && (!Retryable(last) || n == c.retries + 1))
    && (r.Err? && r.error.HttpError? ==> r.error.status == last.status)
  }

  lemma {:induction false} BackoffsAppend(sleeps: seq<Nap>, nap: Nap)
    ensures forall q: nat ::
      Backoffs(sleeps + [nap], q) == Backoffs(sleeps, q) + if nap.Backoff? && nap.post == q then 1 else 0
  {
    assert (sleeps + [nap])[..|sleeps|] == sleeps;
  }

  // The events and the waits for a key have no part in it.
  lemma {:induction false} EventsApart(c: Config, j: Journal, k: Journal, n: nat)
    requires BackedOff(c, j, n) && k.posts == j.posts
    requires k.sleeps == j.sleeps || (exists nap: Nap :: nap.KeyWait? && k.sleeps == j.sleeps + [nap])
    ensures BackedOff(c, k, n)
  {
    hide Backoffs, Power;
    if k.sleeps != j.sleeps {
      var nap: Nap :| nap.KeyWait? && k.sleeps == j.sleeps + [nap];
      BackoffsAppend(j.sleeps, nap);
    }
    forall i | 0 <= i < |k.sleeps| && k.sleeps[i].Backoff? ensures BackoffOf(c, k, k.sleeps[i]) {
      assert BackoffOf(c, j, j.sleeps[i]);
    }
  }

  lemma {:induction false} SeizeApart(c: Config, w: World, p: Pool, j: Journal, attempt: nat, n: nat)
    requires Formed(p) && BackedOff(c, j, n)
    ensures var k := Seize(c, w, p, j, attempt).2; k.posts == j.posts && BackedOff(c, k, n)
    decreases c.retries + 1 - attempt
  {
    hide Acquire, After, Formed, BackedOff;
    if attempt <= c.retries {
      var now := w.clock(|j.events|);
      var ((grant, q), k) := (Acquire(p, now), j.(events := j.events + [AcquireAt(now)]));
      AcquireForms(p, now);
      EventsApart(c, j, k, n);
      if grant.key == None && attempt < c.retries {
        var nap := KeyWait(|j.events|, if grant.wait < 5.0 then grant.wait else 5.0);
        var (q', k') := Sleep(w, q, k, nap);
        EventsApart(c, k, k', n);
        SeizeApart(c, w, q', k', attempt + 1, n);
      }
    }
  }

  lemma {:induction false} PostedApart(c: Config, w: World, p: Pool, j: Journal, key: Key)
    requires Formed(p) && BackedOff(c, j, |j.posts|)
    ensures var k := Posted(w, p, j, key).1;
            && |k.posts| == |j.posts| + 1 && k.posts[..|j.posts|] == j.posts && BackedOff(c, k, |j.posts|)
            && k.posts[|j.posts|].key == key && k.posts[|j.posts|].reply == w.reply(|j.posts|, key)
  {
    hide After, Formed, Backoffs, Power;
    var k := Posted(w, p, j, key).1;
    forall i | 0 <= i < |k.sleeps| && k.sleeps[i].Backoff? ensures BackoffOf(c, k, k.sleeps[i]) {
      assert BackoffOf(c, j, j.sleeps[i]);
    }
  }

  lemma {:induction false} JudgeMeans(c: Config, w: World, p: Pool, j: Journal, key: Key, attempt: nat)
    requires Formed(p) && |j.posts| == attempt + 1 && attempt <= c.retries && BackedOff(c, j, attempt)
    ensures var last := j.posts[attempt].reply;
            var (verdict, _, k) := Judge(c, w, p, j, key, last, attempt);
            && k.posts == j.posts && BackedOff(c, k, attempt + 1)
            && (verdict == None <==> Retryable(last) && attempt < c.retries)
            && (verdict.Some? ==> AnswerOf(c, verdict.value, last, attempt + 1) && verdict.value != Err(Exhausted))
  {
    hide After, Formed, Backoffs, Power, Cool;
    var last := j.posts[attempt].reply;
    var (verdict, _, k) := Judge(c, w, p, j, key, last, attempt);
    if last.Reply? { BackoffsAppend(j.sleeps, Backoff(attempt, Delay(c, last, attempt))); }
    forall i | 0 <= i < |k.sleeps| && k.sleeps[i].Backoff? ensures BackoffOf(c, k, k.sleeps[i]) {
      if i < |j.sleeps| { assert BackoffOf(c, j, j.sleeps[i]); }
    }
  }

  // So far every post was to be repeated.
  ghost predicate Repeating(w: World, j: Journal) {
    && (forall i: nat :: i < |j.posts| ==> j.posts[i].reply == w.reply(i, j.posts[i].key))
    && (forall i: nat :: i < |j.posts| ==> Retryable(j.posts[i].reply))
  }

  lemma {:induction false} RequestMeansFrom(c: Config, w: World, p: Pool, j: Journal, attempt: nat)
    requires Formed(p) && |j.posts| == attempt <= c.retries && BackedOff(c, j, attempt) && Repeating(w, j)
    ensures var (r, _, k) := Request(c, w, p, j, attempt);
            Answered(c, w, r, k) && BackedOff(c, k, |k.posts|)
    decreases c.retries - attempt
  {
    hide After, Formed, Seize, Judge, Posted, BackedOff;
    var (key, p1, j1) := if p.keys == [] then (Ok(UNAUTHENTICATED), p, j) else Seize(c, w, p, j, 0);
    SeizeApart(c, w, p, j, 0, attempt);
    SeizeNeverEmpty(c, w, p, j, 0);
    if key.Ok? {
      PostedApart(c, w, p1, j1, key.value);
      var (p2, j2) := Posted(w, p1, j1, key.value);
      assert forall i: nat :: i < attempt ==> j2.posts[i] == j2.posts[..attempt][i];
      JudgeMeans(c, w, p2, j2, key.value, attempt);
      var (verdict, p3, j3) := Judge(c, w, p2, j2, key.value, w.reply(|j1.posts|, key.value), attempt);
      if verdict == None { RequestMeansFrom(c, w, p3, j3, attempt + 1); }
    }
  }

  // Every request: each post but the last was answered 429 or 5xx; the answer is the last reply's
  // body, its status once it is not to be repeated or no attempt is left, a broken connection, or
  // that the keys were exhausted; and there is one backoff sleep, of exactly its length, for each
  // 5xx with attempts left, and none after a 429.
  lemma {:induction false} RequestMeans(c: Config, w: World, p: Pool)
    requires Formed(p)
    ensures var (r, _, k) := Request(c, w, p, IDLE, 0);
            Answered(c, w, r, k) && BackedOff(c, k, |k.posts|)
  {
    hide Request, Formed;
    RequestMeansFrom(c, w, p, IDLE, 0);
  }

  // ---- What the pool sees of it ----

  lemma {:induction false} AfterAppend(p: Pool, a: seq<Event>, b: seq<Event>)
    requires Formed(p)
    ensures After(p, a + b) == After(After(p, a), b)
  {
    if b == [] {
      assert a + b == a && Play(Run(After(p, a), []), b) == Run(After(p, a), []);
    } else {
      var front, n := b[..|b| - 1], |b| - 1;
      AfterAppend(p, a, front);
      assert (a + b)[..|a| + n] == a + front && (a + b)[..|a| + n + 1] == a + b && (a + b)[|a| + n] == b[n];
      assert b[..n + 1] == b;
      AfterNext(p, a + b, |a| + n);
      AfterNext(After(p, a), b, n);
      hide After, Acquire, Cool, Formed;
    }
  }

  // Event g granted the key.
  ghost predicate GrantedBy(p0: Pool, events: seq<Event>, g: nat, key: Key)
    requires Formed(p0)
  {
    g < |events| && events[g].AcquireAt? && Acquire(After(p0, events[..g]), events[g].now).0.key == Some(key)
  }

  // Every key posted with was granted by the pool since the reply before; the first `cooled` 429s
  // are each followed by the cooldown of their key.
  ghost predicate Documented(c: Config, p0: Pool, j: Journal, cooled: nat)
    requires Formed(p0) && cooled <= |j.posts|
  {
    && (forall i :: 0 <= i < |j.posts| ==> j.posts[i].answered <= |j.events|)
    && (forall i :: 0 <= i < |j.posts| && j.posts[i].key != UNAUTHENTICATED ==>
      GrantedBy(p0, j.events, j.posts[i].granted, j.posts[i].key))
    && (forall i, k :: 0 <= i < k < |j.posts| && j.posts[k].key != UNAUTHENTICATED ==>
      j.posts[i].answered <= j.posts[k].granted)
    && (forall i: nat :: i < cooled ==> CooledBy(c, j, i))
  }

  ghost predicate CooledBy(c: Config, j: Journal, i: nat)
    requires i < |j.posts|
  {
    j.posts[i].key != UNAUTHENTICATED && j.posts[i].reply.Reply? && j.posts[i].reply.status == 429 ==>
      j.posts[i].answered < |j.events| && j.events[j.posts[i].answered].CoolAt?
      && j.events[j.posts[i].answered].key == j.posts[i].key
      && j.events[j.posts[i].answered].seconds == Rest(c, Delay(c, j.posts[i].reply, i))
  }

  ghost function More(j: Journal, events: seq<Event>): Journal {
    j.(events := j.events + events)
  }

  lemma {:induction false} GrantStays(p0: Pool, events: seq<Event>, more: seq<Event>, g: nat, key: Key)
    requires Formed(p0) && GrantedBy(p0, events, g, key)
    ensures GrantedBy(p0, events + more, g, key)
  {
    assert (events + more)[..g] == events[..g];
    hide After, Acquire, Formed;
  }

  lemma {:induction false} MoreDocumented(c: Config, p0: Pool, j: Journal, cooled: nat, events: seq<Event>)
    requires Formed(p0) && cooled <= |j.posts| && Documented(c, p0, j, cooled)
    ensures Documented(c, p0, More(j, events), cooled)
  {
    hide GrantedBy, Formed, Delay, Rest;
    var k := More(j, events);
    forall i | 0 <= i < |j.posts| && j.posts[i].key != UNAUTHENTICATED
      ensures GrantedBy(p0, k.events, k.posts[i].granted, k.posts[i].key)
    {
      GrantStays(p0, j.events, events, j.posts[i].granted, j.posts[i].key);
    }
    forall i: nat | i < cooled ensures CooledBy(c, k, i) {
      assert CooledBy(c, j, i);
    }
  }

  // The journal is in step with the pool: its events lead from p0 to the pool as it is.
  ghost predicate InStep(c: Config, p0: Pool, p: Pool, j: Journal, cooled: nat) {
    Formed(p0) && cooled <= |j.posts| && p == After(p0, j.events) && Documented(c, p0, j, cooled)
  }

  lemma {:induction false} MoreInStep(c: Config, p0: Pool, p: Pool, j: Journal, cooled: nat, events: seq<Event>)
    requires InStep(c, p0, p, j, cooled)
    ensures Formed(p) && InStep(c, p0, After(p, events), More(j, events), cooled)
  {
    hide After, Documented, Formed;
    MoreDocumented(c, p0, j, cooled, events);
    AfterAppend(p0, j.events, events);
  }

  lemma {:induction false} SleepInStep(c: Config, w: World, p0: Pool, p: Pool, j: Journal, cooled: nat, nap: Nap)
    requires InStep(c, p0, p, j, cooled)
    ensures Formed(p)
    ensures var (q, k) := Sleep(w, p, j, nap);
            InStep(c, p0, q, k, cooled) && k.posts == j.posts && |k.events| >= |j.events|
  {
    hide After, Formed, CooledBy, GrantedBy;
    MoreInStep(c, p0, p, j, cooled, w.others(|j.posts| + |j.sleeps|));
    Asleep(c, p0, More(j, w.others(|j.posts| + |j.sleeps|)), cooled, j.sleeps + [nap]);
  }

  lemma {:induction false} Asleep(c: Config, p0: Pool, j: Journal, cooled: nat, sleeps: seq<Nap>)
    requires Formed(p0) && cooled <= |j.posts| && Documented(c, p0, j, cooled)
    ensures Documented(c, p0, j.(sleeps := sleeps), cooled)
  {
    hide GrantedBy, Formed;
    forall i: nat | i < cooled ensures CooledBy(c, j.(sleeps := sleeps), i) {
      assert CooledBy(c, j, i);
    }
  }

  lemma {:induction false} SeizeInStep(c: Config, w: World, p0: Pool, p: Pool, j: Journal, attempt: nat)
    requires InStep(c, p0, p, j, |j.posts|)
    ensures Formed(p)
    ensures var (r, q, k) := Seize(c, w, p, j, attempt);
            && InStep(c, p0, q, k, |k.posts|) && k.posts == j.posts
            && (r.Ok? ==> |k.events| > |j.events| && GrantedBy(p0, k.events, |k.events| - 1, r.value))
    decreases c.retries + 1 - attempt
  {
    hide After, Acquire, Documented, Formed, Sleep;
    MoreInStep(c, p0, p, j, |j.posts|, []);
    if attempt <= c.retries {
      var now := w.clock(|j.events|);
      var (grant, q) := Acquire(p, now);
      var k := More(j, [AcquireAt(now)]);
      AcquireForms(p, now);
      MoreInStep(c, p0, p, j, |j.posts|, [AcquireAt(now)]);
      assert k.events[..|j.events|] == j.events;
      if grant.key == None && attempt < c.retries {
        var nap := KeyWait(|j.events|, if grant.wait < 5.0 then grant.wait else 5.0);
        SleepInStep(c, w, p0, q, k, |j.posts|, nap);
        var (q', k') := Sleep(w, q, k, nap);
        SeizeInStep(c, w, p0, q', k', attempt + 1);
      }
    }
  }

  lemma PostedInStep(c: Config, w: World, p0: Pool, p: Pool, j: Journal, key: Key)
    requires InStep(c, p0, p, j, |j.posts|)
    requires key != UNAUTHENTICATED ==> |j.events| > 0 && GrantedBy(p0, j.events, |j.events| - 1, key)
    requires key != UNAUTHENTICATED ==> forall i :: 0 <= i < |j.posts| ==> j.posts[i].answered <= |j.events| - 1
    ensures Formed(p)
    ensures var (q, k) := Posted(w, p, j, key);
            && InStep(c, p0, q, k, |j.posts|) && |k.posts| == |j.posts| + 1
            && k.posts[|j.posts|].key == key && k.posts[|j.posts|].reply == w.reply(|j.posts|, key)
            && k.posts[|j.posts|].answered == |k.events|
  {
    hide After, Formed, GrantedBy, Delay, Rest;
    var events := w.others(|j.posts| + |j.sleeps|);
    MoreInStep(c, p0, p, j, |j.posts|, events);
    if key != UNAUTHENTICATED { GrantStays(p0, j.events, events, |j.events| - 1, key); }
    var (q, k) := Posted(w, p, j, key);
    forall i: nat | i < |j.posts| ensures CooledBy(c, k, i) {
      assert CooledBy(c, More(j, events), i);
    }
  }

  lemma CoolForms(p: Pool, key: Key, seconds: real, now: real)
    requires Formed(p)
    ensures After(p, [CoolAt(key, seconds, now)]) == Cool(p, key, seconds, now)
  {
    var r := Run(p, []);
    assert Play(r, []) == r && [CoolAt(key, seconds, now)][..0] == [];
    assert Play(r, [CoolAt(key, seconds, now)]) == Step(r, CoolAt(key, seconds, now));
  }

  lemma CooledInStep(c: Config, w: World, p0: Pool, p: Pool, j: Journal, key: Key)
    requires |j.posts| > 0 && InStep(c, p0, p, j, |j.posts| - 1)
    requires var post := j.posts[|j.posts| - 1]; post.key == key && post.answered == |j.events| && post.reply.Reply?
    ensures Formed(p)
    ensures var (q, k) := Cooled(c, w, p, j, key, Delay(c, j.posts[|j.posts| - 1].reply, |j.posts| - 1));
            InStep(c, p0, q, k, |k.posts|) && k.posts == j.posts && |k.events| > |j.events|
  {
    hide After, Formed, GrantedBy, Delay, Rest, Cool;
    var n := |j.posts| - 1;
    var now, seconds := w.clock(|j.events|), Rest(c, Delay(c, j.posts[n].reply, n));
    MoreInStep(c, p0, p, j, n, [CoolAt(key, seconds, now)]);
    CoolForms(p, key, seconds, now);
    assert CooledBy(c, More(j, [CoolAt(key, seconds, now)]), n);
  }

  lemma {:induction false} JudgeInStep(c: Config, w: World, p0: Pool, p: Pool, j: Journal, key: Key, reply: Upstream,
                                       attempt: nat)
    requires |j.posts| == attempt + 1 && InStep(c, p0, p, j, attempt)
    requires var post := j.posts[attempt]; post.key == key && post.answered == |j.events| && post.reply == reply
    ensures Formed(p)
    ensures var (_, q, k) := Judge(c, w, p, j, key, reply, attempt);
            InStep(c, p0, q, k, |k.posts|) && k.posts == j.posts
  {
    hide *;
    InStepFormed(c, p0, p, j, attempt);
    NotCooled(c, p0, p, j, attempt);
    JudgeCases(c, w, p, j, key, reply, attempt);
    if reply.Reply? {
      var delay := Delay(c, reply, attempt);
      if reply.status == 429 && key != UNAUTHENTICATED {
        CooledInStep(c, w, p0, p, j, key);
        var (q, k) := Cooled(c, w, p, j, key, delay);
        SleepInStep(c, w, p0, q, k, |k.posts|, Backoff(attempt, delay));
      } else {
        if reply.status >= 500 { SleepInStep(c, w, p0, p, j, |j.posts|, Backoff(attempt, delay)); }
      }
    }
  }

  lemma {:induction false} InStepFormed(c: Config, p0: Pool, p: Pool, j: Journal, cooled: nat)
    requires InStep(c, p0, p, j, cooled)
    ensures Formed(p) && p.keys == p0.keys && cooled <= |j.posts|
  {
    hide Formed, Documented;
  }

  lemma {:induction false} NotCooled(c: Config, p0: Pool, p: Pool, j: Journal, n: nat)
    requires |j.posts| == n + 1 && InStep(c, p0, p, j, n)
    ensures j.posts[n].key == UNAUTHENTICATED || j.posts[n].reply.Broken? || j.posts[n].reply.status != 429 ==>
      InStep(c, p0, p, j, n + 1)
  {
    hide Formed, GrantedBy, After;
  }

  // Where the pool and the journal stand after a reply was judged.
  lemma {:induction false} JudgeCases(c: Config, w: World, p: Pool, j: Journal, key: Key, reply: Upstream, attempt: nat)
    requires Formed(p)
    ensures var (_, q, k) := Judge(c, w, p, j, key, reply, attempt);
            if reply.Reply? && reply.status == 429 && key != UNAUTHENTICATED then
              (q, k) == Cooled(c, w, p, j, key, Delay(c, reply, attempt))
            else
              (q, k) == (p, j) || (reply.Reply? && reply.status >= 500 &&
                (q, k) == Sleep(w, p, j, Backoff(attempt, Delay(c, reply, attempt))))
  {
    hide Formed, Delay, Cooled, Sleep;
  }

  lemma {:induction false} RequestInStep(c: Config, w: World, p0: Pool, p: Pool, j: Journal, attempt: nat)
    requires |j.posts| == attempt && InStep(c, p0, p, j, attempt)
    ensures Formed(p)
    ensures var (_, q, k) := Request(c, w, p, j, attempt); InStep(c, p0, q, k, |k.posts|)
    decreases c.retries + 1 - attempt
  {
    hide After, Formed, Seize, Judge, Documented, GrantedBy, Posted, InStep;
    InStepFormed(c, p0, p, j, attempt);
    if attempt <= c.retries {
      SeizeInStep(c, w, p0, p, j, 0);
      var (key, p1, j1) := if p.keys == [] then (Ok(UNAUTHENTICATED), p, j) else Seize(c, w, p, j, 0);
      AnswersBefore(c, p0, p, j, attempt);
      if key.Ok? {
        PostedInStep(c, w, p0, p1, j1, key.value);
        var (p2, j2) := Posted(w, p1, j1, key.value);
        var reply := w.reply(|j1.posts|, key.value);
        JudgeInStep(c, w, p0, p2, j2, key.value, reply, attempt);
        var (verdict, p3, j3) := Judge(c, w, p2, j2, key.value, reply, attempt);
        if verdict == None { RequestInStep(c, w, p0, p3, j3, attempt + 1); }
      }
    }
  }

  lemma {:induction false} AnswersBefore(c: Config, p0: Pool, p: Pool, j: Journal, cooled: nat)
    requires InStep(c, p0, p, j, cooled)
    ensures forall i :: 0 <= i < |j.posts| ==> j.posts[i].answered <= |j.events|
  {
    hide Formed, After, GrantedBy;
  }

  // The pool after a request is what the events of its journal make of it, so the windows and
  // cooldowns kept over every run of the pool are kept with requests in it; and a key that
  // answered 429 is not posted with again before its rest is over.
  lemma {:induction false} RejectedKeyRests(c: Config, w: World, p0: Pool, i: nat, n: nat)
    requires Formed(p0)
    requires var posts := Request(c, w, p0, IDLE, 0).2.posts;
             i < n < |posts| && posts[i].key == posts[n].key != UNAUTHENTICATED
             && posts[i].reply.Reply? && posts[i].reply.status == 429
    ensures var (_, q, k) := Request(c, w, p0, IDLE, 0);
            && q == After(p0, k.events)
            && k.posts[i].answered < k.posts[n].granted < |k.events|
            && k.events[k.posts[n].granted].now
               >= k.events[k.posts[i].answered].now + Max0(Rest(c, Delay(c, k.posts[i].reply, i)))
  {
    hide Request, Acquire, Delay, Rest, Formed, Cool;
    assert InStep(c, p0, p0, IDLE, 0) by { assert Play(Run(p0, []), []) == Run(p0, []); }
    RequestInStep(c, w, p0, p0, IDLE, 0);
    var k := Request(c, w, p0, IDLE, 0).2;
    var cool, grant := k.posts[i].answered, k.posts[n].granted;
    assert CooledBy(c, k, i) && GrantedBy(p0, k.events, grant, k.posts[n].key);
    assert k.events[..grant][cool] == k.events[cool];
    GrantFacts(After(p0, k.events[..grant]), k.events[grant].now);
    CooldownRespected(Run(p0, []), k.events[..grant], cool, k.events[grant].now);
  }

  function Max0(x: real): real {
    if x > 0.0 then x else 0.0
  }

  // ---- Waiting for a key ----

  // Event e refused a key with that wait, capped at five seconds.
  ghost predicate RefusedAt(p0: Pool, events: seq<Event>, e: nat)
    requires Formed(p0)
  {
    e < |events| && events[e].AcquireAt? && Acquire(After(p0, events[..e]), events[e].now).0.key == None
  }

  ghost predicate WaitOf(p0: Pool, events: seq<Event>, nap: Nap)
    requires Formed(p0) && nap.KeyWait?
  {
    && RefusedAt(p0, events, nap.event)
    && var hint := Acquire(After(p0, events[..nap.event]), events[nap.event].now).0.wait;
    && nap.seconds == if hint < 5.0 then hint else 5.0
  }

  ghost predicate WaitsTold(p0: Pool, j: Journal)
    requires Formed(p0)
  {
    forall i :: 0 <= i < |j.sleeps| && j.sleeps[i].KeyWait? ==> WaitOf(p0, j.events, j.sleeps[i])
  }

  lemma {:induction false} WaitStays(p0: Pool, events: seq<Event>, more: seq<Event>, nap: Nap)
    requires Formed(p0) && nap.KeyWait? && WaitOf(p0, events, nap)
    ensures WaitOf(p0, events + more, nap)
  {
    assert (events + more)[..nap.event] == events[..nap.event];
    hide After, Acquire, Formed;
  }

  lemma {:induction false} MoreTold(p0: Pool, j: Journal, k: Journal, more: seq<Event>)
    requires Formed(p0) && WaitsTold(p0, j) && k.sleeps == j.sleeps && k.events == j.events + more
    ensures WaitsTold(p0, k)
  {
    hide WaitOf, Formed;
    forall i | 0 <= i < |k.sleeps| && k.sleeps[i].KeyWait? ensures WaitOf(p0, k.events, k.sleeps[i]) {
      WaitStays(p0, j.events, more, j.sleeps[i]);
    }
  }

  lemma {:induction false} SleepTold(w: World, p0: Pool, p: Pool, j: Journal, nap: Nap)
    requires Formed(p0) && Formed(p) && WaitsTold(p0, j) && (nap.KeyWait? ==> WaitOf(p0, j.events, nap))
    ensures WaitsTold(p0, Sleep(w, p, j, nap).1)
    ensures Sleep(w, p, j, nap).1.events == j.events + w.others(|j.posts| + |j.sleeps|)
  {
    hide WaitOf, Formed, After;
    var more := w.others(|j.posts| + |j.sleeps|);
    MoreTold(p0, j, More(j, more), more);
    if nap.KeyWait? { WaitStays(p0, j.events, more, nap); }
  }

  // Trying for a key: every refused try but the last is followed by one wait as long as its hint,
  // at most five seconds, and the keys are exhausted when retries + 1 tries in a row were refused.
  lemma {:induction false} SeizeMeans(c: Config, w: World, p0: Pool, p: Pool, j: Journal, attempt: nat)
    requires InStep(c, p0, p, j, |j.posts|) && Formed(p) && WaitsTold(p0, j) && attempt <= c.retries
    ensures var (r, _, k) := Seize(c, w, p, j, attempt);
            && WaitsTold(p0, k) && |j.sleeps| <= |k.sleeps| <= |j.sleeps| + c.retries - attempt
            && k.sleeps[..|j.sleeps|] == j.sleeps
            && (forall i :: |j.sleeps| <= i < |k.sleeps| ==> k.sleeps[i].KeyWait?)
            && (r.Ok? ==> |k.events| > 0 && GrantedBy(p0, k.events, |k.events| - 1, r.value))
            && (r.Err? ==> |k.events| > 0 && RefusedAt(p0, k.events, |k.events| - 1)
                           && |k.sleeps| == |j.sleeps| + c.retries - attempt)
    decreases c.retries - attempt
  {
    hide After, Acquire, Documented, Formed, Sleep, WaitsTold;
    var now := w.clock(|j.events|);
    var (grant, q) := Acquire(p, now);
    var k := More(j, [AcquireAt(now)]);
    AcquireForms(p, now);
    MoreInStep(c, p0, p, j, |j.posts|, [AcquireAt(now)]);
    MoreTold(p0, j, k, [AcquireAt(now)]);
    assert k.events[..|j.events|] == j.events;
    if grant.key == None && attempt < c.retries {
      var nap := KeyWait(|j.events|, if grant.wait < 5.0 then grant.wait else 5.0);
      SleepTold(w, p0, q, k, nap);
      SleepInStep(c, w, p0, q, k, |j.posts|, nap);
      var (q', k') := Sleep(w, q, k, nap);
      SleptOnce(w, q, k, nap);
      SeizeMeans(c, w, p0, q', k', attempt + 1);
      var end := Seize(c, w, q', k', attempt + 1).2;
      assert end.sleeps[..|j.sleeps|] == end.sleeps[..|k'.sleeps|][..|j.sleeps|];
      assert end.sleeps[|j.sleeps|] == end.sleeps[..|k'.sleeps|][|j.sleeps|];
    }
  }

  lemma {:induction false} SleptOnce(w: World, p: Pool, j: Journal, nap: Nap)
    requires Formed(p)
    ensures Sleep(w, p, j, nap).1.sleeps == j.sleeps + [nap] && Sleep(w, p, j, nap).1.posts == j.posts
  {
    hide After, Formed;
  }

  lemma {:induction false} JudgeTold(c: Config, w: World, p0: Pool, p: Pool, j: Journal, key: Key, reply: Upstream,
                                     attempt: nat)
    requires Formed(p0) && Formed(p) && WaitsTold(p0, j)
    ensures WaitsTold(p0, Judge(c, w, p, j, key, reply, attempt).2)
  {
    hide Formed, After, WaitsTold, Cool, Sleep, Delay, Rest;
    JudgeCases(c, w, p, j, key, reply, attempt);
    if reply.Reply? {
      var delay := Delay(c, reply, attempt);
      SleepTold(w, p0, p, j, Backoff(attempt, delay));
      var cool := CoolAt(key, Rest(c, delay), w.clock(|j.events|));
      MoreTold(p0, j, More(j, [cool]), [cool]);
    }
  }

  lemma {:induction false} PostedTold(w: World, p0: Pool, p: Pool, j: Journal, key: Key)
    requires Formed(p0) && Formed(p) && WaitsTold(p0, j)
    ensures WaitsTold(p0, Posted(w, p, j, key).1)
  {
    hide Formed, After, WaitsTold;
    MoreTold(p0, j, Posted(w, p, j, key).1, w.others(|j.posts| + |j.sleeps|));
  }

  lemma {:induction false} RequestToldFrom(c: Config, w: World, p0: Pool, p: Pool, j: Journal, attempt: nat)
    requires |j.posts| == attempt <= c.retries && InStep(c, p0, p, j, attempt) && Formed(p0) && WaitsTold(p0, j)
    ensures Formed(p)
    ensures var (r, q, k) := Request(c, w, p, j, attempt);
            && InStep(c, p0, q, k, |k.posts|) && WaitsTold(p0, k)
            && (r == Err(Exhausted) ==> p0.keys != [] && |k.events| > 0 && RefusedAt(p0, k.events, |k.events| - 1))
    decreases c.retries - attempt
  {
    hide After, Formed, Seize, Judge, Documented, GrantedBy, Posted, InStep, WaitsTold, RefusedAt, BackedOff;
    InStepFormed(c, p0, p, j, attempt);
    SeizeInStep(c, w, p0, p, j, 0);
    SeizeMeans(c, w, p0, p, j, 0);
    var (key, p1, j1) := if p.keys == [] then (Ok(UNAUTHENTICATED), p, j) else Seize(c, w, p, j, 0);
    AnswersBefore(c, p0, p, j, attempt);
    if key.Ok? {
      PostedInStep(c, w, p0, p1, j1, key.value);
      PostedTold(w, p0, p1, j1, key.value);
      var (p2, j2) := Posted(w, p1, j1, key.value);
      var reply := w.reply(|j1.posts|, key.value);
      JudgeInStep(c, w, p0, p2, j2, key.value, reply, attempt);
      JudgeTold(c, w, p0, p2, j2, key.value, reply, attempt);
      JudgeEnds(c, w, p2, j2, key.value, reply, attempt);
      var (verdict, p3, j3) := Judge(c, w, p2, j2, key.value, reply, attempt);
      if verdict == None { RequestToldFrom(c, w, p0, p3, j3, attempt + 1); }
    }
  }

  lemma {:induction false} JudgeEnds(c: Config, w: World, p: Pool, j: Journal, key: Key, reply: Upstream, attempt: nat)
    requires Formed(p)
    ensures var (verdict, _, k) := Judge(c, w, p, j, key, reply, attempt);
            && k.posts == j.posts && verdict != Some(Err(Exhausted)) && (verdict == None ==> attempt < c.retries)
  {
    hide Formed, After, Cool, Delay, Rest;
  }

  // Every request: the key of each post was granted by the pool since the reply before; each 429 is
  // followed by the rest of its key, for the backoff's length or the pool's window if that is zero;
  // each wait for a key follows a refusal and lasts as long as its hint, at most five seconds; and
  // the keys are exhausted only after a refusal.
  lemma {:induction false} RequestTold(c: Config, w: World, p0: Pool)
    requires Formed(p0)
    ensures var (r, q, k) := Request(c, w, p0, IDLE, 0);
            && q == After(p0, k.events) && Documented(c, p0, k, |k.posts|) && WaitsTold(p0, k)
            && (r == Err(Exhausted) ==> p0.keys != [] && |k.events| > 0 && RefusedAt(p0, k.events, |k.events| - 1))
  {
    hide Request, Formed, RefusedAt, GrantedBy;
    assert InStep(c, p0, p0, IDLE, 0) by { assert Play(Run(p0, []), []) == Run(p0, []); }
    RequestToldFrom(c, w, p0, p0, IDLE, 0);
  }
}
