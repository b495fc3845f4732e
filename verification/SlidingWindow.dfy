/** A queue of admission times pruned at the head: the rolling window behind the key pool
    (nvidia_smartroute/keypool.py) and the inbound rate limiter (nvidia_smartroute/gateway/server.py). */
module SlidingWindow {

  // `while q and q[0] < cutoff: q.popleft()`.
  function Prune(q: seq<real>, cutoff: real): seq<real> {
    if q != [] && q[0] < cutoff then Prune(q[1..], cutoff) else q
  }

  // Pruning drops a prefix of too old entries and stops at the first that is not.
  lemma {:induction false} PruneDrops(q: seq<real>, cutoff: real)
    ensures var r := Prune(q, cutoff);
            && |r| <= |q| && r == q[|q| - |r|..]
            && (r != [] ==> r[0] >= cutoff)
            && forall i :: 0 <= i < |q| - |r| ==> q[i] < cutoff
  {
    if q != [] && q[0] < cutoff {
      PruneDrops(q[1..], cutoff);
    }
  }

  method PruneHead(q: seq<real>, cutoff: real) returns (r: seq<real>)
    ensures r == Prune(q, cutoff)
  {
    r := q;
    while r != [] && r[0] < cutoff
      invariant Prune(r, cutoff) == Prune(q, cutoff)
    {
      r := r[1..];
    }
  }

  lemma PruneTwice(q: seq<real>, cutoff: real)
    ensures Prune(Prune(q, cutoff), cutoff) == Prune(q, cutoff)
  {
    PruneDrops(q, cutoff);
  }

  ghost predicate Sorted(h: seq<real>) {
    forall i, j :: 0 <= i < j < |h| ==> h[i] <= h[j]
  }

  // Any `limit + 1` consecutive admissions span more than the window.
  ghost predicate Spaced(h: seq<real>, limit: nat, window: real) {
    forall i, j :: 0 <= i < |h| && j == i + limit < |h| ==> h[j] > h[i] + window
  }

  // The queue holds the admissions in `h` that are not older than the window at `now`, and maybe
  // some older ones; never more than the limit.
  ghost predicate Tracks(h: seq<real>, q: seq<real>, now: real, limit: nat, window: real) {
    && Sorted(h) && Spaced(h, limit, window)
    && (forall i :: 0 <= i < |h| ==> h[i] <= now)
    && |q| <= |h| && |q| <= limit && q == h[|h| - |q|..]
    && forall i :: 0 <= i < |h| - |q| ==> h[i] < now - window
  }

  lemma {:induction false} EmptyTracks(now: real, limit: nat, window: real)
    ensures Tracks([], [], now, limit, window)
  {
  }

  lemma {:induction false} PruneTracks(h: seq<real>, q: seq<real>, before: real, now: real, limit: nat, window: real)
    requires Tracks(h, q, before, limit, window) && before <= now
    ensures Tracks(h, Prune(q, now - window), now, limit, window)
  {
    var r := Prune(q, now - window);
    PruneDrops(q, now - window);
    assert r == h[|h| - |r|..];
    forall i | 0 <= i < |h| - |r| ensures h[i] < now - window {
      if i >= |h| - |q| {
        assert h[i] == q[i - (|h| - |q|)];
      }
    }
  }

  lemma {:induction false} AdmitTracks(h: seq<real>, q: seq<real>, now: real, limit: nat, window: real)
    requires Tracks(h, q, now, limit, window) && |q| < limit
    ensures Tracks(h + [now], q + [now], now, limit, window)
  {
    var after := h + [now];
    forall i, j | 0 <= i < |after| && j == i + limit < |after| ensures after[j] > after[i] + window {
      if j == |h| {
        assert i < |h| - |q|;
      }
    }
  }

  function CountIn(h: seq<real>, from: real, until: real): nat {
    if h == [] then 0
    else CountIn(h[..|h| - 1], from, until) + if from <= h[|h| - 1] <= until then 1 else 0
  }

  lemma {:induction false} CountAfter(h: seq<real>, from: real, until: real, i: nat)
    requires Sorted(h) && i < |h| && h[i] < from
    ensures CountIn(h, from, until) <= |h| - 1 - i
  {
    if i < |h| - 1 {
      CountAfter(h[..|h| - 1], from, until, i);
    } else {
      CountNone(h, from, until);
    }
  }

  lemma {:induction false} CountNone(h: seq<real>, from: real, until: real)
    requires forall i :: 0 <= i < |h| ==> h[i] < from
    ensures CountIn(h, from, until) == 0
  {
    if h != [] {
      CountNone(h[..|h| - 1], from, until);
    }
  }

  // Rolling-window safety: a closed interval as long as the window holds at most `limit` admissions.
  lemma {:induction false} WindowSafe(h: seq<real>, limit: nat, window: real, from: real)
    requires Sorted(h) && Spaced(h, limit, window)
    ensures CountIn(h, from, from + window) <= limit
  {
    if h != [] {
      var front, last := h[..|h| - 1], h[|h| - 1];
      if from <= last <= from + window {
        CountAtMostLength(h, from, from + window);
        if |h| > limit {
          assert h[|h| - 1 - limit] < from;
          CountAfter(h, from, from + window, |h| - 1 - limit);
        }
      } else {
        WindowSafe(front, limit, window, from);
      }
    }
  }

  lemma {:induction false} CountAtMostLength(h: seq<real>, from: real, until: real)
    ensures CountIn(h, from, until) <= |h|
  {
    if h != [] {
      CountAtMostLength(h[..|h| - 1], from, until);
    }
  }

  // ---- When the next admission is possible ----

  // A full queue at `now` stays full up to and including the instant its oldest entry is exactly
  // one window old, and has room at every later instant.
  lemma {:induction false} FullUntil(q: seq<real>, limit: nat, window: real, t: real)
    requires |q| == limit >= 1
    ensures |Prune(q, t - window)| < limit <==> t > q[0] + window
  {
    PruneDrops(q, t - window);
  }
}
