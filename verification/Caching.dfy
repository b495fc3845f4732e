/** The TTL + LRU response cache (nvidia_smartroute/cache.py). */
module Caching {
  import opened Wrappers
  import opened Ordering

  // A request's digest and a cached response body.
  datatype Key = Key(digest: string)

  datatype Value = Value(body: string)

  datatype Entry = Entry(key: Key, expiresAt: real, value: Value)

  // The OrderedDict: entries with distinct keys, least recently used first.
  type Store = seq<Entry>

  function Lookup(s: Store, k: Key): Option<Entry> {
    if s == [] then None
    else if s[0].key == k then Some(s[0])
    else Lookup(s[1..], k)
  }

  function Without(s: Store, k: Key): Store {
    if s == [] then []
    else (if s[0].key == k then [] else [s[0]]) + Without(s[1..], k)
  }

  ghost function Keys(s: Store): set<Key> {
    set e | e in s :: e.key
  }

  ghost predicate Distinct(s: Store) {
    forall i, j :: 0 <= i < j < |s| ==> s[i].key != s[j].key
  }

  function Evict(s: Store, max: nat): Store {
    if |s| <= max then s else s[|s| - max..]
  }

  // `get` at time `now`.
  function Get(s: Store, k: Key, now: real): (Option<Value>, Store) {
    match Lookup(s, k)
    case None => (None, s)
    case Some(e) =>
      if e.expiresAt < now then (None, Without(s, k)) else (Some(e.value), Without(s, k) + [e])
  }

  function Set(s: Store, e: Entry, max: nat): Store {
    Evict(Without(s, e.key) + [e], max)
  }

  lemma {:induction false} EvictHead(s: Store, max: nat)
    requires |s| > max
    ensures Evict(s[1..], max) == Evict(s, max)
  {
  }

  class ResponseCache {
    const maxEntries: nat
    const ttl: real
    var store: Store
    var hits: nat
    var misses: nat

    constructor (maxEntries: nat, ttl: real)
      ensures this.maxEntries == maxEntries && this.ttl == ttl && store == [] && hits == misses == 0
    {
      this.maxEntries, this.ttl := maxEntries, ttl;
      store, hits, misses := [], 0, 0;
    }

    method Fetch(key: Key, now: real) returns (value: Option<Value>)
      modifies this
      ensures (value, store) == Get(old(store), key, now)
      ensures hits == old(hits) + (if value.Some? then 1 else 0)
      ensures hits + misses == old(hits + misses) + 1
    {
      var item := Lookup(store, key);
      if item.None? {
        misses := misses + 1;
        return None;
      }
      if item.value.expiresAt < now {
        store := Without(store, key);
        misses := misses + 1;
        return None;
      }
      store := Without(store, key) + [item.value];
      hits := hits + 1;
      value := Some(item.value.value);
    }

    method Put(key: Key, value: Value, ttl: Option<real>, now: real)
      modifies `store
      ensures store == Set(old(store), Entry(key, now + if ttl.Some? then ttl.value else this.ttl, value), maxEntries)
    {
      hide Without;
      var expiresAt := now + if ttl.Some? then ttl.value else this.ttl;
      store := Without(store, key) + [Entry(key, expiresAt, value)];
      ghost var full := store;
      while |store| > maxEntries
        invariant Evict(store, maxEntries) == Evict(full, maxEntries)
      {
        EvictHead(store, maxEntries);
        store := store[1..];
      }
    }
  }

  // ---- Traces of gets and sets ----

  datatype Event = GetAt(key: Key, now: real) | SetTo(entry: Entry)

  function Apply(s: Store, e: Event, max: nat): Store {
    match e
    case GetAt(k, now) => Get(s, k, now).1
    case SetTo(entry) => Set(s, entry, max)
  }

  ghost function Play(start: Store, events: seq<Event>, max: nat): Store {
    if events == [] then start
    else Apply(Play(start, events[..|events| - 1], max), events[|events| - 1], max)
  }

  // The reference: a map with expiry and no capacity.
  type Reference = map<Key, Entry>

  function RefGet(m: Reference, k: Key, now: real): (Option<Value>, Reference) {
    if k !in m then (None, m)
    else if m[k].expiresAt < now then (None, m - {k})
    else (Some(m[k].value), m)
  }

  ghost function RefPlay(events: seq<Event>): Reference {
    if events == [] then map[]
    else
      var m, e := RefPlay(events[..|events| - 1]), events[|events| - 1];
      match e
      case GetAt(k, now) => RefGet(m, k, now).1
      case SetTo(entry) => m[entry.key := entry]
  }

  // ---- Facts about the ordered store ----

  lemma {:induction false} LookupFacts(s: Store, k: Key)
    ensures Lookup(s, k).Some? <==> k in Keys(s)
    ensures Lookup(s, k).Some? ==> Lookup(s, k).value in s && Lookup(s, k).value.key == k
  {
    if s != [] && s[0].key != k {
      LookupFacts(s[1..], k);
      assert Keys(s) == {s[0].key} + Keys(s[1..]);
    }
  }

  lemma {:induction false} WithoutMembers(s: Store, k: Key)
    ensures forall e :: e in Without(s, k) <==> e in s && e.key != k
    ensures Keys(Without(s, k)) == Keys(s) - {k}
  {
    if s != [] {
      WithoutMembers(s[1..], k);
      assert forall e :: e in s <==> e == s[0] || e in s[1..];
    }
    forall x ensures x in Keys(Without(s, k)) <==> x in Keys(s) && x != k {
      if x in Keys(s) && x != k {
        var e :| e in s && e.key == x;
        assert e in Without(s, k);
      }
      if x in Keys(Without(s, k)) {
        var e :| e in Without(s, k) && e.key == x;
        assert e in s;
      }
    }
  }

  lemma KeysSplit(s: Store)
    requires s != []
    ensures Keys(s) == {s[0].key} + Keys(s[1..])
  {
    assert forall e :: e in s <==> e == s[0] || e in s[1..];
  }

  lemma {:induction false} WithoutFacts(s: Store, k: Key)
    requires Distinct(s)
    ensures Distinct(Without(s, k))
    ensures |Without(s, k)| == |s| - if k in Keys(s) then 1 else 0
  {
    if s != [] {
      hide Keys;
      WithoutFacts(s[1..], k);
      WithoutMembers(s[1..], k);
      HeadDistinct(s);
      KeysSplit(s);
      if s[0].key != k {
        ConsDistinct(s[0], Without(s[1..], k));
      }
    }
  }

  lemma ConsDistinct(e: Entry, s: Store)
    requires Distinct(s) && e.key !in Keys(s)
    ensures Distinct([e] + s)
  {
  }

  lemma {:induction false} WithoutAbsent(s: Store, k: Key)
    requires k !in Keys(s)
    ensures Without(s, k) == s
  {
    if s != [] {
      KeysSplit(s);
      WithoutAbsent(s[1..], k);
    }
  }

  lemma HeadDistinct(s: Store)
    requires s != [] && Distinct(s)
    ensures s[0].key !in Keys(s[1..])
  {
  }

  lemma {:induction false} WithoutAppend(a: Store, b: Store, k: Key)
    ensures Without(a + b, k) == Without(a, k) + Without(b, k)
  {
    if a == [] {
      assert a + b == b;
    } else {
      assert (a + b)[1..] == a[1..] + b;
      WithoutAppend(a[1..], b, k);
    }
  }

  lemma {:induction false} WithoutSwap(s: Store, x: Key, y: Key)
    ensures Without(Without(s, x), y) == Without(Without(s, y), x)
  {
    hide Without;
    if s == [] {
      WithoutNone(x);
      WithoutNone(y);
    } else {
      var head, rest := s[0], s[1..];
      WithoutSwap(rest, x, y);
      assert s == [head] + rest;
      WithoutAppend([head], rest, x);
      WithoutAppend([head], rest, y);
      WithoutAppend(Without([head], x), Without(rest, x), y);
      WithoutAppend(Without([head], y), Without(rest, y), x);
      WithoutOne(head, x, y);
    }
  }

  lemma WithoutNone(k: Key)
    ensures Without([], k) == []
  {
  }

  lemma WithoutOne(e: Entry, x: Key, y: Key)
    ensures Without(Without([e], x), y) == Without(Without([e], y), x)
  {
    WithoutNone(x);
    WithoutNone(y);
  }

  lemma {:induction false} LookupWithout(s: Store, x: Key, k: Key)
    requires k != x
    ensures Lookup(Without(s, x), k) == Lookup(s, k)
  {
    if s != [] {
      LookupWithout(s[1..], x, k);
      if s[0].key != x {
        assert Without(s, x)[1..] == Without(s[1..], x);
      } else {
        assert Without(s, x) == Without(s[1..], x);
      }
    }
  }

  lemma UseDistinct(s: Store, e: Entry)
    requires Distinct(s)
    ensures Distinct(Without(s, e.key) + [e]) && Keys(Without(s, e.key) + [e]) == Keys(s) + {e.key}
    ensures |Without(s, e.key) + [e]| == |s| + if e.key in Keys(s) then 0 else 1
  {
    WithoutFacts(s, e.key);
    WithoutMembers(s, e.key);
    SnocDistinct(Without(s, e.key), e);
  }

  lemma SnocDistinct(s: Store, e: Entry)
    ensures Keys(s + [e]) == Keys(s) + {e.key}
    ensures Distinct(s) && e.key !in Keys(s) ==> Distinct(s + [e])
  {
    assert forall x :: x in s + [e] <==> x in s || x == e;
  }

  lemma {:induction false} ApplySound(s: Store, e: Event, max: nat)
    requires Distinct(s) && |s| <= max
    ensures Distinct(Apply(s, e, max)) && |Apply(s, e, max)| <= max
  {
    match e
    case GetAt(k, now) =>
      LookupFacts(s, k);
      WithoutFacts(s, k);
      if Lookup(s, k).Some? { UseDistinct(s, Lookup(s, k).value); }
    case SetTo(entry) =>
      UseDistinct(s, entry);
  }

  // The cache never holds more than its capacity, and no key twice.
  lemma {:induction false} PlaySound(start: Store, events: seq<Event>, max: nat)
    requires Distinct(start) && |start| <= max
    ensures Distinct(Play(start, events, max)) && |Play(start, events, max)| <= max
  {
    if events != [] {
      PlaySound(start, events[..|events| - 1], max);
      ApplySound(Play(start, events[..|events| - 1], max), events[|events| - 1], max);
    }
  }

  // ---- Agreement with the unbounded map ----

  ghost predicate Submap(s: Store, m: Reference) {
    forall e :: e in s ==> e.key in m && m[e.key] == e
  }

  lemma {:induction false} ApplySubmap(s: Store, m: Reference, e: Event, max: nat)
    requires Submap(s, m)
    ensures Submap(Apply(s, e, max), match e case GetAt(k, now) => RefGet(m, k, now).1 case SetTo(x) => m[x.key := x])
  {
    match e
    case GetAt(k, now) =>
      LookupFacts(s, k);
      WithoutMembers(s, k);
      assert forall x :: x in s && k !in Keys(s) ==> x.key != k;
    case SetTo(entry) =>
      WithoutMembers(s, entry.key);
      var used := Without(s, entry.key) + [entry];
      forall x | x in Evict(used, max) ensures x == entry || (x in s && x.key != entry.key) {
        assert x in used;
        assert x in Without(s, entry.key) || x == entry;
      }
  }

  // On any trace the bounded cache is a submap of the unbounded one ...
  lemma {:induction false} BoundedIsSubmap(events: seq<Event>, max: nat)
    ensures Submap(Play([], events, max), RefPlay(events))
  {
    if events != [] {
      var front, e := events[..|events| - 1], events[|events| - 1];
      BoundedIsSubmap(front, max);
      ApplySubmap(Play([], front, max), RefPlay(front), e, max);
    }
  }

  // ... so every hit is the answer the unbounded cache would have given.
  lemma {:induction false} HitsAgree(events: seq<Event>, max: nat, k: Key, now: real)
    ensures var hit := Get(Play([], events, max), k, now).0;
            hit.Some? ==> RefGet(RefPlay(events), k, now).0 == hit
  {
    BoundedIsSubmap(events, max);
    LookupFacts(Play([], events, max), k);
  }

  // ---- Inclusion between capacities ----

  // The smaller store is the larger one, or lacks exactly one of its keys.
  ghost predicate Included(small: Store, large: Store) {
    small == large || exists x :: x in Keys(large) && small == Without(large, x)
  }

  lemma GetMissing(large: Store, x: Key, now: real)
    requires x in Keys(large) && Distinct(large)
    ensures var small := Without(large, x);
            Included(Get(small, x, now).1, Get(large, x, now).1)
  {
    var small := Without(large, x);
    WithoutMembers(large, x);
    LookupFacts(small, x);
    LookupFacts(large, x);
    var e := Lookup(large, x).value;
    WithoutAppend(small, [e], x);
    WithoutAbsent(small, x);
    UseDistinct(large, e);
  }

  lemma GetOther(large: Store, x: Key, k: Key, now: real)
    requires x in Keys(large) && Distinct(large) && k != x
    ensures Included(Get(Without(large, x), k, now).1, Get(large, k, now).1)
  {
    LookupWithout(large, x, k);
    LookupFacts(large, k);
    hide Keys, Without, Lookup, Distinct;
    if Lookup(large, k).Some? {
      UseIncluded(large, x, Lookup(large, k).value);
      DropIncluded(large, x, k);
    }
  }

  lemma GetIncluded(small: Store, large: Store, k: Key, now: real)
    requires Included(small, large) && Distinct(large)
    ensures Included(Get(small, k, now).1, Get(large, k, now).1)
  {
    hide Keys, Without, Distinct, Get;
    if small != large {
      var x :| x in Keys(large) && small == Without(large, x);
      if k == x {
        GetMissing(large, x, now);
      } else {
        GetOther(large, x, k, now);
      }
    }
  }

  lemma UseIncluded(large: Store, x: Key, e: Entry)
    requires x in Keys(large) && e.key != x && Distinct(large)
    ensures x in Keys(Without(large, e.key) + [e])
    ensures Without(Without(large, x), e.key) + [e] == Without(Without(large, e.key) + [e], x)
  {
    UseDistinct(large, e);
    WithoutSwap(large, x, e.key);
    WithoutAppend(Without(large, e.key), [e], x);
  }

  lemma DropIncluded(large: Store, x: Key, k: Key)
    requires x in Keys(large) && k != x
    ensures x in Keys(Without(large, k)) && Without(Without(large, x), k) == Without(Without(large, k), x)
  {
    WithoutSwap(large, x, k);
    WithoutMembers(large, k);
  }

  lemma {:induction false} EvictOne(s: Store, n: nat)
    requires Distinct(s) && |s| <= n + 1
    ensures Included(Evict(s, n), s)
  {
    if |s| == n + 1 {
      HeadDistinct(s);
      WithoutAbsent(s[1..], s[0].key);
      assert s[0].key in Keys(s) && Evict(s, n) == s[1..] == Without(s, s[0].key);
    }
  }

  lemma {:induction false} EvictBoth(large: Store, x: Key, n: nat)
    requires Distinct(large) && x in Keys(large) && |large| <= n + 2
    ensures Included(Evict(Without(large, x), n), Evict(large, n + 1))
  {
    WithoutFacts(large, x);
    if |large| == n + 2 {
      var rest := large[1..];
      HeadDistinct(large);
      if large[0].key == x {
        WithoutAbsent(rest, x);
        assert Without(large, x) == rest;
        assert Distinct(rest);
        EvictOne(rest, n);
      } else {
        assert Without(large, x) == [large[0]] + Without(rest, x);
        assert Evict(Without(large, x), n) == Without(rest, x);
        KeysSplit(large);
      }
    }
  }

  lemma {:induction false} SetIncluded(small: Store, large: Store, e: Entry, n: nat)
    requires Included(small, large) && Distinct(large) && |large| <= n + 1 && |small| <= n
    ensures Included(Set(small, e, n), Set(large, e, n + 1))
  {
    UseDistinct(large, e);
    if small == large {
      EvictOne(Without(large, e.key) + [e], n);
    } else {
      var x :| x in Keys(large) && small == Without(large, x);
      WithoutFacts(large, x);
      if e.key == x {
        WithoutMembers(large, x);
        WithoutAbsent(small, x);
        EvictOne(small + [e], n);
      } else {
        UseIncluded(large, x, e);
        EvictBoth(Without(large, e.key) + [e], x, n);
      }
    }
  }

  // On any trace the capacity-n cache holds what the capacity-(n + 1) cache holds, in the same
  // order, but for at most one key.
  lemma {:induction false} CapacityInclusion(events: seq<Event>, n: nat)
    ensures Included(Play([], events, n), Play([], events, n + 1))
  {
    if events != [] {
      var front, e := events[..|events| - 1], events[|events| - 1];
      CapacityInclusion(front, n);
      PlaySound([], front, n);
      PlaySound([], front, n + 1);
      match e
      case GetAt(k, now) => GetIncluded(Play([], front, n), Play([], front, n + 1), k, now);
      case SetTo(entry) => SetIncluded(Play([], front, n), Play([], front, n + 1), entry, n);
    }
  }

  // ---- Survival ----

  // The keys that the trace sets or hits.
  ghost function Used(start: Store, events: seq<Event>, max: nat): set<Key> {
    if events == [] then {}
    else
      var front, e := events[..|events| - 1], events[|events| - 1];
      Used(start, front, max)
      + match e
        case GetAt(k, now) => if Get(Play(start, front, max), k, now).0.Some? then {k} else {}
        case SetTo(entry) => {entry.key}
  }

  ghost predicate Touches(e: Event, k: Key) {
    match e case GetAt(x, _) => x == k case SetTo(entry) => entry.key == k
  }

  // Everything used more recently than `kept` is in `used`.
  ghost predicate Shielded(s: Store, kept: Entry, used: set<Key>) {
    exists i :: 0 <= i < |s| && s[i] == kept && forall j :: i < j < |s| ==> s[j].key in used
  }

  lemma WithoutShielded(s: Store, kept: Entry, used: set<Key>, k: Key)
    requires Shielded(s, kept, used) && kept.key != k
    ensures Shielded(Without(s, k), kept, used)
  {
    var i :| 0 <= i < |s| && s[i] == kept && forall j :: i < j < |s| ==> s[j].key in used;
    assert s == s[..i] + ([kept] + s[i + 1..]);
    WithoutAppend(s[..i], [kept] + s[i + 1..], k);
    WithoutAppend([kept], s[i + 1..], k);
    WithoutMembers(s[i + 1..], k);
    var after := Without(s, k);
    var m := |Without(s[..i], k)|;
    assert after == Without(s[..i], k) + ([kept] + Without(s[i + 1..], k));
    forall j | m < j < |after| ensures after[j].key in used {
      assert after[j] == Without(s[i + 1..], k)[j - m - 1];
      assert after[j] in Without(s[i + 1..], k);
      assert after[j] in s[i + 1..];
      var l :| i < l < |s| && s[l] == after[j];
    }
    assert after[m] == kept;
  }

  lemma AppendShielded(s: Store, kept: Entry, used: set<Key>, e: Entry)
    requires Shielded(s, kept, used)
    ensures Shielded(s + [e], kept, used + {e.key})
  {
    var i :| 0 <= i < |s| && s[i] == kept && forall j :: i < j < |s| ==> s[j].key in used;
    assert (s + [e])[i] == kept;
  }

  lemma {:induction false} EvictShielded(s: Store, kept: Entry, used: set<Key>, max: nat)
    requires Distinct(s) && Shielded(s, kept, used) && |used| < max
    ensures Shielded(Evict(s, max), kept, used)
  {
    var i :| 0 <= i < |s| && s[i] == kept && forall j :: i < j < |s| ==> s[j].key in used;
    TailBound(s[i + 1..], used);
    var after := Evict(s, max);
    var cut := |s| - |after|;
    assert after[i - cut] == kept;
  }

  lemma {:induction false} TailBound(s: Store, used: set<Key>)
    requires Distinct(s) && forall j :: 0 <= j < |s| ==> s[j].key in used
    ensures |s| <= |used|
  {
    if s != [] {
      var k := s[0].key;
      assert forall j :: 0 < j < |s| ==> s[j].key != k;
      TailBound(s[1..], used - {k});
    }
  }

  lemma {:induction false} ApplyShielded(s: Store, kept: Entry, used: set<Key>, e: Event, max: nat)
    requires Distinct(s) && |s| <= max && Shielded(s, kept, used) && !Touches(e, kept.key)
    ensures var more := match e
              case GetAt(k, now) => if Get(s, k, now).0.Some? then {k} else {}
              case SetTo(entry) => {entry.key};
            |used + more| < max ==> Shielded(Apply(s, e, max), kept, used + more)
  {
    match e
    case GetAt(k, now) =>
      LookupFacts(s, k);
      WithoutShielded(s, kept, used, k);
      if Get(s, k, now).0.Some? {
        AppendShielded(Without(s, k), kept, used, Lookup(s, k).value);
      } else {
        assert used + {} == used;
      }
    case SetTo(entry) =>
      WithoutShielded(s, kept, used, entry.key);
      AppendShielded(Without(s, entry.key), kept, used, entry);
      UseDistinct(s, entry);
      if |used + {entry.key}| < max {
        EvictShielded(Without(s, entry.key) + [entry], kept, used + {entry.key}, max);
      }
  }

  lemma {:induction false} StaysShielded(start: Store, kept: Entry, events: seq<Event>, max: nat)
    requires Distinct(start) && |start| <= max && start != [] && start[|start| - 1] == kept
    requires forall i :: 0 <= i < |events| ==> !Touches(events[i], kept.key)
    requires |Used(start, events, max)| < max
    ensures Shielded(Play(start, events, max), kept, Used(start, events, max))
  {
    if events == [] {
      assert start[|start| - 1] == kept;
    } else {
      var front, e := events[..|events| - 1], events[|events| - 1];
      SubsetSize(Used(start, front, max), Used(start, events, max));
      StaysShielded(start, kept, front, max);
      PlaySound(start, front, max);
      ApplyShielded(Play(start, front, max), kept, Used(start, front, max), e, max);
    }
  }

  // The entry used last survives every trace that uses fewer than max_entries other keys.
  lemma {:induction false} Survives(start: Store, kept: Entry, events: seq<Event>, max: nat)
    requires Distinct(start) && |start| <= max && start != [] && start[|start| - 1] == kept
    requires forall i :: 0 <= i < |events| ==> !Touches(events[i], kept.key)
    requires |Used(start, events, max)| < max
    ensures Lookup(Play(start, events, max), kept.key) == Some(kept)
  {
    StaysShielded(start, kept, events, max);
    PlaySound(start, events, max);
    var s := Play(start, events, max);
    var i :| 0 <= i < |s| && s[i] == kept && forall j :: i < j < |s| ==> s[j].key in Used(start, events, max);
    LookupFacts(s, kept.key);
  }

  // ---- Hits ----

  ghost predicate Live(s: Store, k: Key, now: real, e: Entry) {
    e in s && e.key == k && e.expiresAt >= now
  }

  lemma {:induction false} LookupOnly(s: Store, e: Entry)
    requires Distinct(s) && e in s
    ensures Lookup(s, e.key) == Some(e)
  {
    if s[0] != e {
      assert e in s[1..];
      LookupOnly(s[1..], e);
      assert s[0].key != e.key;
    }
  }

  // A look-up answers with the live entry of the key if there is one, and makes it the most
  // recent; otherwise it answers nothing, and only an expired entry of the key is gone.
  lemma {:induction false} GetMeans(s: Store, k: Key, now: real)
    requires Distinct(s)
    ensures var (answer, after) := Get(s, k, now);
            && (answer.Some? <==> exists e :: Live(s, k, now, e))
            && (forall e :: Live(s, k, now, e) ==> answer == Some(e.value) && after == Without(s, k) + [e])
            && (answer == None ==> after == Without(s, k) && forall e :: e in s && e.key == k ==> e.expiresAt < now)
  {
    hide Without, Lookup;
    LookupFacts(s, k);
    forall e | e in s && e.key == k ensures Lookup(s, k) == Some(e) {
      LookupOnly(s, e);
    }
    if k !in Keys(s) { WithoutAbsent(s, k); }
    if Lookup(s, k).Some? && Lookup(s, k).value.expiresAt >= now { assert Live(s, k, now, Lookup(s, k).value); }
  }

  // The event sets `kept`, or finds it stored and not expired.
  ghost predicate Uses(before: Store, e: Event, kept: Entry) {
    match e
    case SetTo(entry) => entry == kept
    case GetAt(k, now) => Live(before, k, now, kept)
  }

  // Either way the entry is then the most recent one.
  lemma {:induction false} UsedIsLast(before: Store, e: Event, kept: Entry, max: nat)
    requires Distinct(before) && |before| <= max && max >= 1 && Uses(before, e, kept)
    ensures var after := Apply(before, e, max);
            Distinct(after) && |after| <= max && after != [] && after[|after| - 1] == kept
  {
    hide Without, Lookup;
    ApplySound(before, e, max);
    if e.GetAt? { GetMeans(before, e.key, e.now); }
  }

  lemma {:induction false} PlayAppend(start: Store, a: seq<Event>, b: seq<Event>, max: nat)
    ensures Play(start, a + b, max) == Play(Play(start, a, max), b, max)
  {
    hide Apply;
    if b == [] {
      assert a + b == a;
    } else {
      var front := b[..|b| - 1];
      PlayAppend(start, a, front, max);
      assert (a + b)[..|a + b| - 1] == a + front && (a + b)[|a + b| - 1] == b[|b| - 1];
    }
  }

  lemma {:induction false} PlayOne(start: Store, events: seq<Event>, e: Event, max: nat)
    ensures Play(start, events + [e], max) == Apply(Play(start, events, max), e, max)
  {
    assert (events + [e])[..|events|] == events;
    hide Apply;
  }

  // An entry that was set or hit is served as long as it has not expired and fewer than max_entries
  // other keys were set or hit since; and that is what the unbounded cache answers.
  lemma {:induction false} ServedWhileLive(before: seq<Event>, e: Event, kept: Entry, events: seq<Event>, max: nat,
                                           now: real)
    requires max >= 1 && Uses(Play([], before, max), e, kept) && kept.expiresAt >= now
    requires forall i :: 0 <= i < |events| ==> !Touches(events[i], kept.key)
    requires |Used(Play([], before + [e], max), events, max)| < max
    ensures var (trace, k) := (before + [e] + events, kept.key);
            && Get(Play([], trace, max), k, now).0 == Some(kept.value)
            && RefGet(RefPlay(trace), k, now).0 == Some(kept.value)
  {
    hide *;
    EmptySound();
    PlaySound([], before, max);
    UsedIsLast(Play([], before, max), e, kept, max);
    PlayOne([], before, e, max);
    PlayAppend([], before + [e], events, max);
    Survives(Play([], before + [e], max), kept, events, max);
    LookupServes(Play([], before + [e] + events, max), kept, now);
    HitsAgree(before + [e] + events, max, kept.key, now);
  }

  lemma EmptySound()
    ensures Distinct([])
  {
  }

  lemma {:induction false} LookupServes(s: Store, kept: Entry, now: real)
    requires Lookup(s, kept.key) == Some(kept) && kept.expiresAt >= now
    ensures Get(s, kept.key, now).0 == Some(kept.value)
  {
  }

  // Storing puts the entry last after all others in their order, then drops the oldest beyond the cap.
  lemma {:induction false} SetMeans(s: Store, e: Entry, max: nat)
    ensures var (after, full) := (Set(s, e, max), Without(s, e.key) + [e]);
            && |after| == (if |full| <= max then |full| else max)
            && after == full[|full| - |after|..]
  {
    hide Without;
  }
}
