/** The inbound sliding-window limiter (nvidia_smartroute/gateway/server.py). */
module RateLimits {
  import opened SlidingWindow

  // A client by its host, or "unknown".
  datatype Client = Client(host: string)

  // Crash stands for the IndexError of reading the head of an empty queue.
  datatype Decision = Admit | Deny(retryAfter: int) | Crash

  // Python's `int` of a float: towards zero.
  function Truncate(x: real): int {
    if x >= 0.0 then x.Floor else -((-x).Floor)
  }

  function QueueOf(windows: map<Client, seq<real>>, client: Client): seq<real> {
    if client in windows then windows[client] else []
  }

  // One request of a client whose queue is `q`: the decision and the queue it leaves.
  function Decide(q: seq<real>, limit: int, window: real, now: real): (Decision, seq<real>) {
    var kept := Prune(q, now - window);
    if |kept| >= limit then
      (if kept == [] then Crash else Deny(Truncate(kept[0] + window - now) + 1), kept)
    else (Admit, kept + [now])
  }

  class RateLimiter {
    const limit: int
    const window: real
    var windows: map<Client, seq<real>>

    constructor (limit: int, window: real)
      ensures this.limit == limit && this.window == window && windows == map[]
    {
      this.limit, this.window, windows := limit, window, map[];
    }

    method Check(client: Client, now: real) returns (d: Decision)
      modifies this
      ensures var (decision, q) := Decide(QueueOf(old(windows), client), limit, window, now);
              d == decision && windows == old(windows)[client := q]
    {
      var queue := QueueOf(windows, client);
      var kept := PruneHead(queue, now - window);
      if |kept| >= limit {
        windows := windows[client := kept];
        if kept == [] {
          return Crash;
        }
        return Deny(Truncate(kept[0] + window - now) + 1);
      }
      windows := windows[client := kept + [now]];
      d := Admit;
    }
  }

  // ---- Whole runs of one client ----

  datatype History = History(queue: seq<real>, admitted: seq<real>)

  ghost function Play(requests: seq<real>, limit: int, window: real): History {
    if requests == [] then History([], [])
    else
      var h, now := Play(requests[..|requests| - 1], limit, window), requests[|requests| - 1];
      var (d, q) := Decide(h.queue, limit, window, now);
      History(q, if d == Admit then h.admitted + [now] else h.admitted)
  }

  lemma {:induction false} PlayTracks(requests: seq<real>, limit: nat, window: real, now: real)
    requires limit >= 1 && Sorted(requests) && forall i :: 0 <= i < |requests| ==> requests[i] <= now
    ensures Tracks(Play(requests, limit, window).admitted, Play(requests, limit, window).queue, now, limit, window)
  {
    if requests == [] {
      EmptyTracks(now, limit, window);
    } else {
      hide Tracks, Prune;
      var front, last := requests[..|requests| - 1], requests[|requests| - 1];
      PlayTracks(front, limit, window, last);
      DecideTracks(Play(front, limit, window), limit, window, last, now);
    }
  }

  lemma {:induction false} DecideTracks(h: History, limit: nat, window: real, last: real, now: real)
    requires limit >= 1 && last <= now && Tracks(h.admitted, h.queue, last, limit, window)
    ensures var (d, q) := Decide(h.queue, limit, window, last);
            Tracks(if d == Admit then h.admitted + [last] else h.admitted, q, now, limit, window)
  {
    hide Tracks, Prune;
    var kept := Prune(h.queue, last - window);
    PruneTracks(h.admitted, h.queue, last, last, limit, window);
    if |kept| < limit {
      AdmitTracks(h.admitted, kept, last, limit, window);
      StillTracks(h.admitted + [last], kept + [last], last, now, limit, window);
    } else {
      StillTracks(h.admitted, kept, last, now, limit, window);
    }
  }

  lemma {:induction false} StillTracks(h: seq<real>, q: seq<real>, before: real, now: real, limit: nat, window: real)
    requires Tracks(h, q, before, limit, window) && before <= now
    ensures Tracks(h, q, now, limit, window)
  {
  }

  // A client is admitted at most `limit` times in any closed interval as long as the window.
  lemma {:induction false} ClientWindowSafe(requests: seq<real>, limit: nat, window: real, from: real)
    requires limit >= 1 && Sorted(requests)
    ensures CountIn(Play(requests, limit, window).admitted, from, from + window) <= limit
  {
    PlayTracks(requests, limit, window, if requests == [] then 0.0 else requests[|requests| - 1]);
    WindowSafe(Play(requests, limit, window).admitted, limit, window, from);
  }

  // The limiter fails with an IndexError exactly when the configured limit admits nobody.
  lemma CrashIff(requests: seq<real>, limit: int, window: real, now: real)
    requires Sorted(requests) && forall i :: 0 <= i < |requests| ==> requests[i] <= now
    ensures Decide(Play(requests, limit, window).queue, limit, window, now).0 == Crash <==> limit <= 0
  {
    if limit <= 0 {
      NothingAdmitted(requests, limit, window);
    }
  }

  lemma {:induction false} NothingAdmitted(requests: seq<real>, limit: int, window: real)
    requires limit <= 0
    ensures Play(requests, limit, window).queue == []
  {
    if requests != [] {
      NothingAdmitted(requests[..|requests| - 1], limit, window);
    }
  }

  // After a denial: with nothing admitted in between, the client is denied up to the instant its
  // oldest request is exactly one window old and admitted ever after; Retry-After reaches past that
  // instant, by no more than a second.
  lemma {:induction false} RetryAfterExact(requests: seq<real>, limit: nat, window: real, now: real)
    requires limit >= 1 && Sorted(requests) && forall i :: 0 <= i < |requests| ==> requests[i] <= now
    requires Decide(Play(requests, limit, window).queue, limit, window, now).0.Deny?
    ensures var (d, q) := Decide(Play(requests, limit, window).queue, limit, window, now);
            && q != [] && now <= q[0] + window < now + d.retryAfter as real <= q[0] + window + 1.0
            && d.retryAfter >= 1
            && forall t: real :: Decide(q, limit, window, t).0 == Admit <==> t > q[0] + window
  {
    DeniedIsFull(requests, limit, window, now);
    var (d, q) := Decide(Play(requests, limit, window).queue, limit, window, now);
    TruncateBelow(q[0] + window - now);
    hide Play, Sorted, Truncate;
    forall t: real ensures Decide(q, limit, window, t).0 == Admit <==> t > q[0] + window {
      FullUntil(q, limit, window, t);
    }
  }

  lemma {:induction false} DeniedIsFull(requests: seq<real>, limit: nat, window: real, now: real)
    requires limit >= 1 && Sorted(requests) && forall i :: 0 <= i < |requests| ==> requests[i] <= now
    requires Decide(Play(requests, limit, window).queue, limit, window, now).0.Deny?
    ensures var (d, q) := Decide(Play(requests, limit, window).queue, limit, window, now);
            |q| == limit && q[0] >= now - window && d == Deny(Truncate(q[0] + window - now) + 1)
  {
    hide Play, Sorted, Tracks, Decide;
    PlayTracks(requests, limit, window, now);
    DenialIsFull(Play(requests, limit, window), limit, window, now);
  }

  lemma {:induction false} DenialIsFull(h: History, limit: nat, window: real, now: real)
    requires limit >= 1 && Tracks(h.admitted, h.queue, now, limit, window)
    ensures var (d, q) := Decide(h.queue, limit, window, now);
            d.Deny? ==> |q| == limit && q[0] >= now - window && d == Deny(Truncate(q[0] + window - now) + 1)
  {
    hide Prune, Truncate, Sorted, Spaced;
    PruneDrops(h.queue, now - window);
  }

  lemma TruncateBelow(x: real)
    requires x >= 0.0
    ensures 0 <= Truncate(x) && Truncate(x) as real <= x < (Truncate(x) + 1) as real
  {
  }

  // A request is admitted exactly when fewer than the limit were in the window that ends with it.
  lemma {:induction false} AdmittedIff(requests: seq<real>, limit: nat, window: real, now: real)
    requires limit >= 1 && Sorted(requests) && forall i :: 0 <= i < |requests| ==> requests[i] <= now
    ensures var h := Play(requests, limit, window);
            Decide(h.queue, limit, window, now).0 == Admit <==> CountIn(h.admitted, now - window, now) < limit
  {
    hide Play, Sorted, Spaced;
    var h := Play(requests, limit, window);
    PlayTracks(requests, limit, window, now);
    PruneTracks(h.admitted, h.queue, now, now, limit, window);
    var kept := Prune(h.queue, now - window);
    PruneDrops(h.queue, now - window);
    TrackedCount(h.admitted, kept, now, limit, window);
  }

  lemma {:induction false} TrackedCount(h: seq<real>, q: seq<real>, now: real, limit: nat, window: real)
    requires Tracks(h, q, now, limit, window) && (q != [] ==> q[0] >= now - window)
    ensures CountIn(h, now - window, now) == |q|
  {
    var gone, from := |h| - |q|, now - window;
    assert h == h[..gone] + q;
    CountNone(h[..gone], from, now);
    forall i | 0 <= i < |q| ensures from <= q[i] <= now {
      assert q[i] == h[gone + i] && q[0] == h[gone];
    }
    CountSplit(h[..gone], q, from, now);
    CountWhole(q, from, now);
  }

  lemma {:induction false} CountSplit(a: seq<real>, b: seq<real>, from: real, until: real)
    ensures CountIn(a + b, from, until) == CountIn(a, from, until) + CountIn(b, from, until)
  {
    if b == [] {
      assert a + b == a;
    } else {
      CountSplit(a, b[..|b| - 1], from, until);
      assert (a + b)[..|a + b| - 1] == a + b[..|b| - 1];
    }
  }

  lemma {:induction false} CountWhole(q: seq<real>, from: real, until: real)
    requires forall i :: 0 <= i < |q| ==> from <= q[i] <= until
    ensures CountIn(q, from, until) == |q|
  {
    if q != [] { CountWhole(q[..|q| - 1], from, until); }
  }

  // ---- Whole runs of all clients ----

  datatype Visit = Visit(client: Client, now: real)

  // The table of windows that `Check` updates, and the visits let in.
  datatype Table = Table(windows: map<Client, seq<real>>, admitted: seq<Visit>)

  ghost function Serve(visits: seq<Visit>, limit: int, window: real): Table {
    if visits == [] then Table(map[], [])
    else
      var t, v := Serve(visits[..|visits| - 1], limit, window), visits[|visits| - 1];
      var (d, q) := Decide(QueueOf(t.windows, v.client), limit, window, v.now);
      Table(t.windows[v.client := q], if d == Admit then t.admitted + [v] else t.admitted)
  }

  // The instants of one client's visits.
  ghost function Own(visits: seq<Visit>, client: Client): seq<real> {
    if visits == [] then []
    else
      var v := visits[|visits| - 1];
      Own(visits[..|visits| - 1], client) + if v.client == client then [v.now] else []
  }

  ghost predicate Chronological(visits: seq<Visit>) {
    forall i, j :: 0 <= i < j < |visits| ==> visits[i].now <= visits[j].now
  }

  lemma OwnAppend(visits: seq<Visit>, v: Visit, client: Client)
    ensures Own(visits + [v], client)
      == if v.client == client then Own(visits, client) + [v.now] else Own(visits, client)
  {
    assert (visits + [v])[..|visits|] == visits;
  }

  lemma {:induction false} OwnSorted(visits: seq<Visit>, client: Client)
    requires Chronological(visits)
    ensures Sorted(Own(visits, client))
    ensures forall i :: 0 <= i < |Own(visits, client)| ==>
      visits != [] && Own(visits, client)[i] <= visits[|visits| - 1].now
  {
    if visits != [] {
      OwnSorted(visits[..|visits| - 1], client);
    }
  }

  lemma PlayNext(requests: seq<real>, now: real, limit: int, window: real)
    ensures var h := Play(requests, limit, window);
            var (d, q) := Decide(h.queue, limit, window, now);
            Play(requests + [now], limit, window) == History(q, if d == Admit then h.admitted + [now] else h.admitted)
  {
    assert (requests + [now])[..|requests|] == requests;
    hide Decide;
  }

  // Clients do not disturb each other: in a run of all of them each client's window and admissions
  // are those of its own requests alone.
  lemma {:induction false} ClientsApart(visits: seq<Visit>, limit: int, window: real, client: Client)
    ensures var (t, h) := (Serve(visits, limit, window), Play(Own(visits, client), limit, window));
            QueueOf(t.windows, client) == h.queue && Own(t.admitted, client) == h.admitted
  {
    hide *;
    if visits == [] {
      NobodyServed(limit, window, client);
    } else {
      var front, v := visits[..|visits| - 1], visits[|visits| - 1];
      ClientsApart(front, limit, window, client);
      ServeLast(visits, limit, window, client);
      OwnAppend(front, v, client);
      assert visits == front + [v];
      PlayNext(Own(front, client), v.now, limit, window);
    }
  }

  lemma NobodyServed(limit: int, window: real, client: Client)
    ensures var (t, h) := (Serve([], limit, window), Play(Own([], client), limit, window));
            QueueOf(t.windows, client) == h.queue && Own(t.admitted, client) == h.admitted
  {
  }

  // What one visit changes for a client: everything as decided for its own visit, nothing for another's.
  lemma ServeLast(visits: seq<Visit>, limit: int, window: real, client: Client)
    requires visits != []
    ensures var (t, before, v) :=
              (Serve(visits, limit, window), Serve(visits[..|visits| - 1], limit, window), visits[|visits| - 1]);
            var (d, q) := Decide(QueueOf(before.windows, client), limit, window, v.now);
            var (queue, own) := (QueueOf(before.windows, client), Own(before.admitted, client));
            && QueueOf(t.windows, client) == (if v.client == client then q else queue)
            && Own(t.admitted, client) == if v.client == client && d == Admit then own + [v.now] else own
  {
    hide Decide;
    OwnAppend(Serve(visits[..|visits| - 1], limit, window).admitted, visits[|visits| - 1], client);
  }

  // In a run of all clients, each is admitted at most `limit` times in any closed interval as long
  // as the window.
  lemma {:induction false} ServerWindowSafe(visits: seq<Visit>, limit: nat, window: real, client: Client, from: real)
    requires limit >= 1 && Chronological(visits)
    ensures CountIn(Own(Serve(visits, limit, window).admitted, client), from, from + window) <= limit
  {
    hide Play, Serve, Own, Sorted;
    OwnSorted(visits, client);
    ClientsApart(visits, limit, window, client);
    ClientWindowSafe(Own(visits, client), limit, window, from);
  }
}
