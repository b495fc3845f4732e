/** The bounded web-research session of one run (nvidia_smartroute/parkour/research.py). */
module Research {
  import opened Wrappers
  import opened Ordering

  datatype Limits = Limits(
    perRun: nat, perNode: nat, queryChars: nat, results: nat, snippetChars: nat, bytes: nat,
    timeout: real, unitCost: real, maxCost: real
  )

  datatype Node = Node(id: string)

  // The cache key: the stripped query and the domain filters.
  datatype Lookup = Lookup(query: string, domains: seq<string>)

  datatype RawItem = RawItem(url: string, title: string, snippet: string)

  datatype Citation = Citation(url: string, title: string, snippet: string)

  datatype Answer = Answer(query: string, citations: seq<Citation>, truncated: bool)

  datatype Error =
    | EmptyQuery | QueryTooLong | TimedOut | RunLimit | NodeLimit | CostLimit | CallbackRaised | ProviderFailed

  // Library code the session calls: stripping, the URL guard and secret masking.
  datatype Library = Library(strip: string -> string, allowed: string -> bool, mask: string -> string)

  // The session's fields; `perNode` is the dictionary of counts as a multiset.
  datatype Session = Session(
    limits: Limits, started: real, searches: nat, perNode: multiset<Node>, bytes: nat, cost: real,
    cache: map<Lookup, Answer>
  )

  function Kept(lib: Library, limits: Limits, item: RawItem): string {
    Clip(lib.mask(item.snippet), limits.snippetChars)
  }

  // ---- Shaping a provider's results ----

  datatype Shaped = Shaped(citations: seq<Citation>, bytes: nat, truncated: bool)

  // `_shape` on the results still to come, from the citations and bytes so far.
  function Shape(lib: Library, limits: Limits, raw: seq<RawItem>, sofar: Shaped): Shaped {
    if raw == [] then sofar
    else if |sofar.citations| >= limits.results then sofar.(truncated := true)
    else if !lib.allowed(raw[0].url) then Shape(lib, limits, raw[1..], sofar.(truncated := true))
    else
      var next := Cite(lib, limits, raw[0], sofar);
      if next.bytes >= limits.bytes then next.(truncated := true) else Shape(lib, limits, raw[1..], next)
  }

  // One allowed result becomes a citation within the byte budget.
  function Cite(lib: Library, limits: Limits, item: RawItem, sofar: Shaped): Shaped {
    var snippet := Kept(lib, limits, item);
    var over := sofar.bytes + |snippet| > limits.bytes;
    var room := if sofar.bytes < limits.bytes then limits.bytes - sofar.bytes else 0;
    var cut := if over then Clip(snippet, room) else snippet;
    Shaped(sofar.citations + [Citation(item.url, Clip(lib.mask(item.title), limits.snippetChars), cut)],
           sofar.bytes + |cut|,
           sofar.truncated || |snippet| < |item.snippet| || over)
  }

  // ---- One search ----

  // `_validate_query` and the look-up, then `_enforce_pre_call`: what a search does before it is
  // first suspended.
  datatype Admission = Refused(error: Error) | Cached(answer: Answer) | Passed

  function Look(s: Session, k: Lookup, node: Node, now: real): Admission {
    if k.query == "" then Refused(EmptyQuery)
    else if |k.query| > s.limits.queryChars then Refused(QueryTooLong)
    else if k in s.cache then Cached(s.cache[k])
    else if now - s.started > s.limits.timeout then Refused(TimedOut)
    else if s.searches >= s.limits.perRun then Refused(RunLimit)
    else if s.perNode[node] >= s.limits.perNode then Refused(NodeLimit)
    else Passed
  }

  function CountSearch(s: Session, node: Node): Session {
    s.(searches := s.searches + 1, perNode := s.perNode + multiset{node}, cost := s.cost + s.limits.unitCost)
  }

  // `search` after the provider answered.
  function Deliver(lib: Library, s: Session, k: Lookup, raw: seq<RawItem>): (Answer, Session) {
    var shaped := Shape(lib, s.limits, raw, Shaped([], s.bytes, false));
    var answer := Answer(k.query, shaped.citations, shaped.truncated);
    (answer, s.(bytes := shaped.bytes, cache := s.cache[k := answer]))
  }

  function NewSession(limits: Limits, started: real): Session {
    Session(limits, started, 0, multiset{}, 0, 0.0, map[])
  }

  predicate ValidQuery(limits: Limits, k: Lookup) {
    0 < |k.query| <= limits.queryChars
  }

  // A search passes the checks exactly when its query is valid and not cached, time is left, and
  // the session with this search counted would still be within both limits on searches.
  lemma CheckIffRoom(s: Session, k: Lookup, node: Node, now: real)
    ensures Look(s, k, node, now) == Passed <==>
      && ValidQuery(s.limits, k) && k !in s.cache && now - s.started <= s.limits.timeout
      && CountSearch(s, node).searches <= s.limits.perRun && CountSearch(s, node).perNode[node] <= s.limits.perNode
  {
    assert CountSearch(s, node).perNode[node] == s.perNode[node] + 1;
  }

  // ---- Overlapping searches ----

  // `search` is suspended twice: while the progress callback runs, between the checks and the
  // counting, and while the provider is asked. Each event is what one search does without being
  // suspended; `Finish` with None is a failed provider call, `Abandon` a search ended by its
  // callback or by cancellation.
  datatype Event =
    | Check(call: nat, key: Lookup, node: Node, now: real)
    | Count(call: nat)
    | Finish(call: nat, reply: Option<seq<RawItem>>)
    | Abandon(call: nat)

  datatype Waiting = Waiting(key: Lookup, node: Node)

  datatype Stored = Stored(key: Lookup, answer: Answer)

  // The session, the searches checked but not yet counted, those whose provider call is in flight,
  // the number of provider calls made, and every answer delivered.
  datatype Run = Run(
    session: Session, checked: map<nat, Waiting>, pending: map<nat, Lookup>, calls: nat, delivered: seq<Stored>
  )

  function Step(lib: Library, r: Run, e: Event): Run {
    match e
    case Check(call, key, node, now) =>
      if call !in r.checked && call !in r.pending && Look(r.session, key, node, now) == Passed then
        r.(checked := r.checked[call := Waiting(key, node)])
      else r
    case Count(call) =>
      if call !in r.checked then r
      else
        var counted, rest := CountSearch(r.session, r.checked[call].node), r.checked - {call};
        if counted.cost > counted.limits.maxCost then r.(session := counted, checked := rest)
        else
          var pending := r.pending[call := r.checked[call].key];
          r.(session := counted, checked := rest, pending := pending, calls := r.calls + 1)
    case Finish(call, reply) =>
      if call !in r.pending then r
      else
        var key, rest := r.pending[call], r.pending - {call};
        if reply == None then r.(pending := rest)
        else
          var (answer, after) := Deliver(lib, r.session, key, reply.value);
          r.(session := after, pending := rest, delivered := r.delivered + [Stored(key, answer)])
    case Abandon(call) => r.(checked := r.checked - {call}, pending := r.pending - {call})
  }

  ghost function Play(lib: Library, start: Run, events: seq<Event>): Run {
    if events == [] then start else Step(lib, Play(lib, start, events[..|events| - 1]), events[|events| - 1])
  }

  ghost function Fresh(limits: Limits, started: real): Run {
    Run(NewSession(limits, started), map[], map[], 0, [])
  }

  lemma {:induction false} PlayNext(lib: Library, start: Run, events: seq<Event>, i: nat)
    requires i < |events|
    ensures Play(lib, start, events[..i + 1]) == Step(lib, Play(lib, start, events[..i]), events[i])
  {
    assert events[..i + 1][..i] == events[..i];
    hide Step;
  }

  lemma PlayOne(lib: Library, start: Run, events: seq<Event>, e: Event)
    ensures Play(lib, start, events + [e]) == Step(lib, Play(lib, start, events), e)
  {
    assert (events + [e])[..|events|] == events;
    hide Step;
  }

  lemma {:induction false} PlayAppend(lib: Library, start: Run, a: seq<Event>, b: seq<Event>)
    ensures Play(lib, start, a + b) == Play(lib, Play(lib, start, a), b)
  {
    hide Step;
    if b == [] {
      assert a + b == a;
    } else {
      var front := b[..|b| - 1];
      PlayAppend(lib, start, a, front);
      assert (a + b)[..|a + b| - 1] == a + front && (a + b)[|a + b| - 1] == b[|b| - 1];
    }
  }

  // What other searches do leaves a suspended search where it is.
  lemma {:induction false} OthersKeep(lib: Library, r: Run, events: seq<Event>, mine: nat)
    requires forall e :: e in events ==> e.call != mine
    ensures var q := Play(lib, r, events);
            && (mine in q.checked <==> mine in r.checked) && (mine in r.checked ==> q.checked[mine] == r.checked[mine])
            && (mine in q.pending <==> mine in r.pending) && (mine in r.pending ==> q.pending[mine] == r.pending[mine])
            && q.session.limits == r.session.limits && q.session.started == r.session.started
  {
    if events != [] {
      OthersKeep(lib, r, events[..|events| - 1], mine);
      hide Look, Deliver, Play;
      assert events[|events| - 1] in events;
      StepKeeps(lib, Play(lib, r, events[..|events| - 1]), events[|events| - 1], mine);
      PlayNext(lib, r, events, |events| - 1);
      assert events[..|events| - 1 + 1] == events;
    }
  }

  lemma {:induction false} StepKeeps(lib: Library, r: Run, e: Event, mine: nat)
    requires e.call != mine
    ensures var q := Step(lib, r, e);
            && (mine in q.checked <==> mine in r.checked) && (mine in r.checked ==> q.checked[mine] == r.checked[mine])
            && (mine in q.pending <==> mine in r.pending) && (mine in r.pending ==> q.pending[mine] == r.pending[mine])
            && q.session.limits == r.session.limits && q.session.started == r.session.started
  {
    hide Look, Shape;
  }

  // What goes on around one search: what other searches do while its progress callback runs,
  // whether the callback raises, what others do while the provider is asked, and its reply.
  datatype Surroundings = Surroundings(
    emitting: seq<Event>, raised: bool, calling: seq<Event>, reply: Option<seq<RawItem>>
  )

  // The whole of `search`, under the number `mine`.
  ghost function Search(lib: Library, r: Run, mine: nat, k: Lookup, node: Node, now: real, around: Surroundings)
    : (Result<Answer, Error>, Run)
  {
    match Look(r.session, k, node, now)
    case Refused(error) => (Err(error), r)
    case Cached(answer) => (Ok(answer), r)
    case Passed =>
      var checked := Play(lib, Step(lib, r, Check(mine, k, node, now)), around.emitting);
      if around.raised then (Err(CallbackRaised), Step(lib, checked, Abandon(mine)))
      else
        var counted := Step(lib, checked, Count(mine));
        if counted.session.cost > counted.session.limits.maxCost then (Err(CostLimit), counted)
        else
          var answered := Play(lib, counted, around.calling);
          (if around.reply == None then Err(ProviderFailed)
           else Ok(Deliver(lib, answered.session, k, around.reply.value).0),
           Step(lib, answered, Finish(mine, around.reply)))
  }

  // A search adds its own steps to the run and nothing else, so all that holds of runs holds with it.
  lemma {:induction false} SearchIsRun(lib: Library, r: Run, mine: nat, k: Lookup, node: Node, now: real,
                                       around: Surroundings)
    ensures var begun := [Check(mine, k, node, now)] + around.emitting;
            var q := Search(lib, r, mine, k, node, now, around).1;
            || q == r
            || q == Play(lib, r, begun + [Abandon(mine)])
            || q == Play(lib, r, begun + [Count(mine)])
            || q == Play(lib, r, begun + [Count(mine)] + around.calling + [Finish(mine, around.reply)])
  {
    hide Step, Look, Deliver;
    var check, count := Check(mine, k, node, now), Count(mine);
    var begun := [check] + around.emitting;
    PlayOne(lib, r, [], check);
    assert [] + [check] == [check];
    PlayAppend(lib, r, [check], around.emitting);
    PlayOne(lib, r, begun, Abandon(mine));
    PlayOne(lib, r, begun, count);
    PlayAppend(lib, r, begun + [count], around.calling);
    PlayOne(lib, r, begun + [count] + around.calling, Finish(mine, around.reply));
  }

  class ResearchSession {
    const limits: Limits
    const lib: Library
    const started: real
    var searches: nat
    var perNode: multiset<Node>
    var bytes: nat
    var cost: real
    var cache: map<Lookup, Answer>
    // The local state of suspended searches.
    var checked: map<nat, Waiting>
    var pending: map<nat, Lookup>
    ghost var calls: nat
    ghost var delivered: seq<Stored>

    constructor (limits: Limits, lib: Library, started: real)
      ensures Model() == Fresh(limits, started) && this.lib == lib
    {
      this.limits, this.lib, this.started := limits, lib, started;
      searches, perNode, bytes, cost, cache := 0, multiset{}, 0, 0.0, map[];
      checked, pending, calls, delivered := map[], map[], 0, [];
    }

    ghost function Model(): Run
      reads this
    {
      Run(Session(limits, started, searches, perNode, bytes, cost, cache), checked, pending, calls, delivered)
    }

    method EnforcePreCall(node: Node, now: real) returns (e: Option<Error>)
      ensures e == None <==>
        now - started <= limits.timeout && searches < limits.perRun && perNode[node] < limits.perNode
      ensures e == Some(TimedOut) <==> now - started > limits.timeout
      ensures e == Some(RunLimit) <==> now - started <= limits.timeout && searches >= limits.perRun
      ensures e.Some? ==> e.value in {TimedOut, RunLimit, NodeLimit}
    {
      if now - started > limits.timeout {
        return Some(TimedOut);
      }
      if searches >= limits.perRun {
        return Some(RunLimit);
      }
      e := if perNode[node] >= limits.perNode then Some(NodeLimit) else None;
    }

    // Up to the first suspension; None when the search goes on.
    method Begin(call: nat, key: Lookup, node: Node, now: real) returns (r: Option<Result<Answer, Error>>)
      requires call !in checked && call !in pending
      modifies this`checked
      ensures Model() == Step(lib, old(Model()), Check(call, key, node, now))
      ensures r == match Look(old(Model()).session, key, node, now) {
          case Refused(error) => Some(Err(error))
          case Cached(answer) => Some(Ok(answer))
          case Passed => None
        }
    {
      if key.query == "" {
        return Some(Err(EmptyQuery));
      }
      if |key.query| > limits.queryChars {
        return Some(Err(QueryTooLong));
      }
      if key in cache {
        return Some(Ok(cache[key]));
      }
      var stop := EnforcePreCall(node, now);
      if stop.Some? {
        return Some(Err(stop.value));
      }
      checked := checked[call := Waiting(key, node)];
      r := None;
    }

    // From there to the provider call; false when the cost limit stops the search.
    method Proceed(call: nat) returns (ok: bool)
      requires call in checked
      modifies this
      ensures Model() == Step(lib, old(Model()), Count(call))
      ensures ok <==> Model().session.cost <= limits.maxCost
      ensures ok ==> call in pending && pending[call] == old(checked)[call].key
    {
      var waiting := checked[call];
      checked := checked - {call};
      searches := searches + 1;
      perNode := perNode + multiset{waiting.node};
      cost := cost + limits.unitCost;
      if cost > limits.maxCost {
        return false;
      }
      pending := pending[call := waiting.key];
      calls := calls + 1;
      ok := true;
    }

    // From the provider's answer to the end.
    method Complete(call: nat, reply: Option<seq<RawItem>>) returns (r: Result<Answer, Error>)
      requires call in pending
      modifies this
      ensures Model() == Step(lib, old(Model()), Finish(call, reply))
      ensures r == if reply == None then Err(ProviderFailed)
                   else Ok(Deliver(lib, old(Model()).session, old(pending)[call], reply.value).0)
    {
      hide Shape;
      var key := pending[call];
      pending := pending - {call};
      if reply == None {
        return Err(ProviderFailed);
      }
      var answer := ShapeResults(key.query, reply.value);
      cache := cache[key := answer];
      delivered := delivered + [Stored(key, answer)];
      r := Ok(answer);
    }

    // A suspension: other searches take their steps.
    method Suspend(others: seq<Event>)
      modifies this
      ensures Model() == Play(lib, old(Model()), others)
    {
      hide Look, Deliver;
      for i := 0 to |others|
        invariant Model() == Play(lib, old(Model()), others[..i])
      {
        PlayNext(lib, old(Model()), others, i);
        match others[i]
        case Check(call, key, node, now) =>
          if call !in checked && call !in pending {
            var _ := Begin(call, key, node, now);
          }
        case Count(call) =>
          if call in checked {
            var _ := Proceed(call);
          }
        case Finish(call, reply) =>
          if call in pending {
            var _ := Complete(call, reply);
          }
        case Abandon(call) =>
          checked, pending := checked - {call}, pending - {call};
      }
      assert others[..|others|] == others;
    }

    method SearchOnce(mine: nat, query: string, node: Node, domains: seq<string>, now: real, around: Surroundings)
      returns (r: Result<Answer, Error>)
      requires mine !in checked && mine !in pending
      requires forall e :: e in around.emitting + around.calling ==> e.call != mine
      modifies this
      ensures (r, Model()) == Search(lib, old(Model()), mine, Lookup(lib.strip(query), domains), node, now, around)
    {
      hide Deliver, Play;
      var key := Lookup(lib.strip(query), domains);
      var early := Begin(mine, key, node, now);
      if early.Some? {
        return early.value;
      }
      OthersKeep(lib, Model(), around.emitting, mine);
      Suspend(around.emitting);
      if around.raised {
        checked, pending := checked - {mine}, pending - {mine};
        return Err(CallbackRaised);
      }
      var ok := Proceed(mine);
      if !ok {
        return Err(CostLimit);
      }
      OthersKeep(lib, Model(), around.calling, mine);
      Suspend(around.calling);
      r := Complete(mine, around.reply);
    }

    method ShapeResults(query: string, raw: seq<RawItem>) returns (answer: Answer)
      modifies `bytes
      ensures var shaped := Shape(lib, limits, raw, Shaped([], old(bytes), false));
              answer == Answer(query, shaped.citations, shaped.truncated) && bytes == shaped.bytes
    {
      var citations, truncated := [], false;
      var i := 0;
      while i < |raw|
        invariant 0 <= i <= |raw|
        invariant Shape(lib, limits, raw, Shaped([], old(bytes), false))
          == Shape(lib, limits, raw[i..], Shaped(citations, bytes, truncated))
      {
        var item := raw[i];
        i := i + 1;
        assert raw[i - 1..][0] == item && raw[i - 1..][1..] == raw[i..];
        if |citations| >= limits.results {
          truncated := true;
          return Answer(query, citations, truncated);
        }
        if !lib.allowed(item.url) {
          truncated := true;
          continue;
        }
        var snippet := Clip(lib.mask(item.snippet), limits.snippetChars);
        if |snippet| < |item.snippet| {
          truncated := true;
        }
        if bytes + |snippet| > limits.bytes {
          snippet := Clip(snippet, if limits.bytes > bytes then limits.bytes - bytes else 0);
          truncated := true;
        }
        bytes := bytes + |snippet|;
        citations := citations + [Citation(item.url, Clip(lib.mask(item.title), limits.snippetChars), snippet)];
        if bytes >= limits.bytes {
          truncated := true;
          return Answer(query, citations, truncated);
        }
      }
      answer := Answer(query, citations, truncated);
    }
  }

  // ---- What shaping keeps ----

  function SnippetBytes(citations: seq<Citation>): nat {
    if citations == [] then 0
    else SnippetBytes(citations[..|citations| - 1]) + |citations[|citations| - 1].snippet|
  }

  lemma SnippetBytesAppend(citations: seq<Citation>, c: Citation)
    ensures SnippetBytes(citations + [c]) == SnippetBytes(citations) + |c.snippet|
  {
    assert (citations + [c])[..|citations|] == citations;
  }

  ghost predicate WithinLimits(lib: Library, limits: Limits, c: Citation) {
    lib.allowed(c.url) && |c.snippet| <= limits.snippetChars && |c.title| <= limits.snippetChars
  }

  // Every citation is an allowed result within the size limits, the bytes are counted exactly,
  // and neither the byte budget nor the number of results is exceeded.
  lemma {:induction false} ShapeKeeps(lib: Library, limits: Limits, raw: seq<RawItem>, sofar: Shaped, before: nat)
    requires sofar.bytes == before + SnippetBytes(sofar.citations) && sofar.bytes <= limits.bytes
    requires |sofar.citations| <= limits.results && forall c :: c in sofar.citations ==> WithinLimits(lib, limits, c)
    ensures var r := Shape(lib, limits, raw, sofar);
            && r.bytes == before + SnippetBytes(r.citations) && sofar.bytes <= r.bytes <= limits.bytes
            && |r.citations| <= limits.results && (forall c :: c in r.citations ==> WithinLimits(lib, limits, c))
  {
    hide WithinLimits, SnippetBytes;
    if raw != [] && |sofar.citations| < limits.results {
      if !lib.allowed(raw[0].url) {
        ShapeKeeps(lib, limits, raw[1..], sofar.(truncated := true), before);
      } else {
        var next := Cite(lib, limits, raw[0], sofar);
        CiteKeeps(lib, limits, raw[0], sofar, before);
        if next.bytes < limits.bytes {
          ShapeKeeps(lib, limits, raw[1..], next, before);
        }
      }
    }
  }

  lemma {:induction false} CiteKeeps(lib: Library, limits: Limits, item: RawItem, sofar: Shaped, before: nat)
    requires sofar.bytes == before + SnippetBytes(sofar.citations) && sofar.bytes <= limits.bytes &&
      lib.allowed(item.url)
    requires forall c :: c in sofar.citations ==> WithinLimits(lib, limits, c)
    ensures var r := Cite(lib, limits, item, sofar);
            && r.bytes == before + SnippetBytes(r.citations) && sofar.bytes <= r.bytes <= limits.bytes
            && |r.citations| == |sofar.citations| + 1 && (forall c :: c in r.citations ==> WithinLimits(lib, limits, c))
  {
    var r := Cite(lib, limits, item, sofar);
    SnippetBytesAppend(sofar.citations, r.citations[|sofar.citations|]);
  }

  // All results are there, in order and with their whole snippets.
  ghost predicate Whole(lib: Library, limits: Limits, raw: seq<RawItem>, citations: seq<Citation>) {
    && |citations| == |raw|
    && forall i :: 0 <= i < |raw| ==>
         citations[i]
           == Citation(raw[i].url, Clip(lib.mask(raw[i].title), limits.snippetChars), Kept(lib, limits, raw[i]))
         && lib.allowed(raw[i].url) && |Kept(lib, limits, raw[i])| >= |raw[i].snippet|
  }

  // After what was cited before, all of `raw` is.
  ghost predicate Completes(lib: Library, limits: Limits, raw: seq<RawItem>, before: seq<Citation>,
                            after: seq<Citation>) {
    |after| >= |before| && after[..|before|] == before && Whole(lib, limits, raw, after[|before|..])
  }

  lemma {:induction false} TruncatedStays(lib: Library, limits: Limits, raw: seq<RawItem>, sofar: Shaped)
    requires sofar.truncated
    ensures Shape(lib, limits, raw, sofar).truncated
  {
    hide Cite;
    if raw != [] && |sofar.citations| < limits.results {
      if !lib.allowed(raw[0].url) { TruncatedStays(lib, limits, raw[1..], sofar); }
      else { CiteTruncated(lib, limits, raw[0], sofar); }
      if lib.allowed(raw[0].url) && Cite(lib, limits, raw[0], sofar).bytes < limits.bytes {
        TruncatedStays(lib, limits, raw[1..], Cite(lib, limits, raw[0], sofar));
      }
    }
  }

  lemma CiteTruncated(lib: Library, limits: Limits, item: RawItem, sofar: Shaped)
    requires sofar.truncated
    ensures Cite(lib, limits, item, sofar).truncated
  {
  }

  // The bytes the results would take if nothing were cut for the byte budget.
  function KeptBytes(lib: Library, limits: Limits, raw: seq<RawItem>): nat {
    if raw == [] then 0 else |Kept(lib, limits, raw[0])| + KeptBytes(lib, limits, raw[1..])
  }

  // What an answer needs in order to be complete.
  ghost predicate Fits(lib: Library, limits: Limits, raw: seq<RawItem>, count: nat, bytes: nat) {
    && count + |raw| <= limits.results
    && (forall i :: 0 <= i < |raw| ==> lib.allowed(raw[i].url) && |Kept(lib, limits, raw[i])| >= |raw[i].snippet|)
    && (raw != [] ==> bytes + KeptBytes(lib, limits, raw) < limits.bytes)
  }

  lemma {:induction false} FitsStep(lib: Library, limits: Limits, raw: seq<RawItem>, count: nat, bytes: nat)
    requires raw != []
    ensures Fits(lib, limits, raw, count, bytes) <==>
      && count < limits.results && lib.allowed(raw[0].url) && |Kept(lib, limits, raw[0])| >= |raw[0].snippet|
      && bytes + |Kept(lib, limits, raw[0])| < limits.bytes
      && Fits(lib, limits, raw[1..], count + 1, bytes + |Kept(lib, limits, raw[0])|)
  {
    hide Kept;
    if Fits(lib, limits, raw[1..], count + 1, bytes + |Kept(lib, limits, raw[0])|) {
      forall i | 1 <= i < |raw| ensures lib.allowed(raw[i].url) && |Kept(lib, limits, raw[i])| >= |raw[i].snippet| {
        assert raw[i] == raw[1..][i - 1];
      }
    }
    assert forall i :: 0 <= i < |raw| - 1 ==> raw[1..][i] == raw[i + 1];
  }

  // An answer is marked as truncated exactly when something does not fit: the flag is never
  // missing, and never set for nothing. A budget used up to the last byte counts as not fitting.
  lemma {:induction false} TruncatedExactly(lib: Library, limits: Limits, raw: seq<RawItem>, sofar: Shaped)
    requires !sofar.truncated && |sofar.citations| <= limits.results
    ensures var r := Shape(lib, limits, raw, sofar);
            && (!r.truncated <==> Fits(lib, limits, raw, |sofar.citations|, sofar.bytes))
            && (!r.truncated ==> Completes(lib, limits, raw, sofar.citations, r.citations))
  {
    hide Kept, Fits, Completes;
    if raw == [] {
      FitsNone(lib, limits, sofar);
    } else {
      FitsStep(lib, limits, raw, |sofar.citations|, sofar.bytes);
      if |sofar.citations| < limits.results {
        if !lib.allowed(raw[0].url) {
          TruncatedStays(lib, limits, raw[1..], sofar.(truncated := true));
        } else {
          var next := Cite(lib, limits, raw[0], sofar);
          if next.bytes < limits.bytes {
            if next.truncated {
              TruncatedStays(lib, limits, raw[1..], next);
            } else {
              TruncatedExactly(lib, limits, raw[1..], next);
              WholeStep(lib, limits, raw, sofar, Shape(lib, limits, raw[1..], next));
            }
          }
        }
      }
    }
  }

  lemma FitsNone(lib: Library, limits: Limits, sofar: Shaped)
    requires |sofar.citations| <= limits.results
    ensures Fits(lib, limits, [], |sofar.citations|, sofar.bytes)
    ensures Completes(lib, limits, [], sofar.citations, sofar.citations)
  {
  }

  lemma WholeStep(lib: Library, limits: Limits, raw: seq<RawItem>, sofar: Shaped, r: Shaped)
    requires raw != [] && lib.allowed(raw[0].url)
    requires var next := Cite(lib, limits, raw[0], sofar);
             !next.truncated && (!r.truncated ==> Completes(lib, limits, raw[1..], next.citations, r.citations))
    ensures !r.truncated ==> Completes(lib, limits, raw, sofar.citations, r.citations)
  {
    if !r.truncated {
      var n, next := |sofar.citations|, Cite(lib, limits, raw[0], sofar);
      assert r.citations[..n] == r.citations[..n + 1][..n];
      assert r.citations[n] == r.citations[..n + 1][n] == next.citations[n];
      forall i | 0 <= i < |raw| - 1
        ensures r.citations[n..][i + 1] == r.citations[n + 1..][i] && raw[i + 1] == raw[1..][i] {}
    }
  }

  // ---- Which results are cited, and what a search answers ----

  // What a result is cited as when `used` bytes are gone: its url, its masked title and snippet
  // clipped to size, and the snippet clipped once more to the bytes that remain.
  ghost predicate CitedAs(lib: Library, limits: Limits, item: RawItem, used: nat, c: Citation) {
    && c.url == item.url && c.title == Clip(lib.mask(item.title), limits.snippetChars)
    && c.snippet == Clip(Clip(lib.mask(item.snippet), limits.snippetChars),
                         if used < limits.bytes then limits.bytes - used else 0)
  }

  // Citation k is item k - from, cited with the bytes of the citations before it used; only the first
  // may find the bytes used up.
  ghost predicate InTurn(lib: Library, limits: Limits, items: seq<RawItem>, base: nat, from: nat, all: seq<Citation>,
                         k: nat)
  {
    && from <= k < |all| && k - from < |items| && k < limits.results
    && CitedAs(lib, limits, items[k - from], base + SnippetBytes(all[..k]), all[k])
    && (k > from ==> base + SnippetBytes(all[..k]) < limits.bytes)
  }

  // From place `from` on, the citations are the first of `items` in turn: all of them, unless the
  // results or the bytes are used up.
  ghost predicate Cites(lib: Library, limits: Limits, items: seq<RawItem>, base: nat, from: nat, all: seq<Citation>) {
    && from <= |all| <= from + |items|
    && (forall k: nat :: from <= k < |all| ==> InTurn(lib, limits, items, base, from, all, k))
    && (|all| < from + |items| ==>
          |all| >= limits.results || (|all| > from && base + SnippetBytes(all) >= limits.bytes))
  }

  // The allowed results, in the provider's order.
  ghost predicate AllowedAt(lib: Library, raw: seq<RawItem>, items: seq<RawItem>, at: seq<nat>) {
    Picks(items, raw, at, (item: RawItem) => lib.allowed(item.url))
  }

  lemma {:induction false} AllowedNext(lib: Library, raw: seq<RawItem>, later: seq<RawItem>, rest: seq<nat>)
    returns (items: seq<RawItem>, at: seq<nat>)
    requires raw != [] && AllowedAt(lib, raw[1..], later, rest)
    ensures AllowedAt(lib, raw, items, at)
    ensures items == if lib.allowed(raw[0].url) then [raw[0]] + later else later
  {
    hide Picks;
    at := PickNext(later, raw, rest, (item: RawItem) => lib.allowed(item.url));
    items := if lib.allowed(raw[0].url) then [raw[0]] + later else later;
    assert [] + later == later;
  }

  // A refused result is passed over, and every allowed one is cited in its turn until the answer is
  // full.
  lemma {:induction false} CitesInOrder(lib: Library, limits: Limits, raw: seq<RawItem>, sofar: Shaped, base: nat)
    returns (items: seq<RawItem>, at: seq<nat>)
    requires sofar.bytes == base + SnippetBytes(sofar.citations)
    ensures AllowedAt(lib, raw, items, at)
    ensures CitesAll(lib, limits, raw, sofar, base, items)
  {
    if raw == [] {
      items, at := [], [];
    } else {
      hide AllowedAt, CitesAll, Shape, Cite, SnippetBytes;
      var next := if lib.allowed(raw[0].url) then Cite(lib, limits, raw[0], sofar) else sofar.(truncated := true);
      if lib.allowed(raw[0].url) { CiteFacts(lib, limits, raw[0], sofar, base); }
      var later, rest := CitesInOrder(lib, limits, raw[1..], next, base);
      items, at := AllowedNext(lib, raw, later, rest);
      if lib.allowed(raw[0].url) {
        CitesThen(lib, limits, raw, sofar, base, later);
      } else {
        CitesLater(lib, limits, raw, sofar, base, later);
      }
    }
  }

  // Shaping adds to the citations, counts their bytes, and cites these items.
  ghost predicate CitesAll(lib: Library, limits: Limits, raw: seq<RawItem>, sofar: Shaped, base: nat,
                           items: seq<RawItem>)
  {
    var r := Shape(lib, limits, raw, sofar);
    && sofar.citations <= r.citations && r.bytes == base + SnippetBytes(r.citations)
    && Cites(lib, limits, items, base, |sofar.citations|, r.citations)
  }

  lemma CitesLater(lib: Library, limits: Limits, raw: seq<RawItem>, sofar: Shaped, base: nat, later: seq<RawItem>)
    requires raw != [] && !lib.allowed(raw[0].url) && sofar.bytes == base + SnippetBytes(sofar.citations)
    requires CitesAll(lib, limits, raw[1..], sofar.(truncated := true), base, later)
    ensures CitesAll(lib, limits, raw, sofar, base, later)
  {
    hide Cites, Cite, SnippetBytes;
    if |sofar.citations| >= limits.results { CitesNone(lib, limits, later, base, sofar.citations); }
  }

  lemma CitesThen(lib: Library, limits: Limits, raw: seq<RawItem>, sofar: Shaped, base: nat, later: seq<RawItem>)
    requires raw != [] && lib.allowed(raw[0].url) && sofar.bytes == base + SnippetBytes(sofar.citations)
    requires CitesAll(lib, limits, raw[1..], Cite(lib, limits, raw[0], sofar), base, later)
    ensures CitesAll(lib, limits, raw, sofar, base, [raw[0]] + later)
  {
    hide Cites, Cite, SnippetBytes, CitedAs;
    var next, items, from := Cite(lib, limits, raw[0], sofar), [raw[0]] + later, |sofar.citations|;
    CiteFacts(lib, limits, raw[0], sofar, base);
    assert next.citations[..from] == sofar.citations && items[1..] == later;
    if from >= limits.results {
      CitesNone(lib, limits, items, base, sofar.citations);
    } else if next.bytes >= limits.bytes {
      CitesOnly(lib, limits, items, base, from, next.citations);
    } else {
      CitesMore(lib, limits, items, base, from, next.citations, Shape(lib, limits, raw[1..], next).citations);
    }
  }

  lemma CitesNone(lib: Library, limits: Limits, items: seq<RawItem>, base: nat, all: seq<Citation>)
    requires items == [] || |all| >= limits.results
    ensures Cites(lib, limits, items, base, |all|, all)
  {
  }

  lemma CiteFacts(lib: Library, limits: Limits, item: RawItem, sofar: Shaped, base: nat)
    requires sofar.bytes == base + SnippetBytes(sofar.citations)
    ensures var next := Cite(lib, limits, item, sofar);
            && |next.citations| == |sofar.citations| + 1 && sofar.citations <= next.citations
            && next.bytes == base + SnippetBytes(next.citations)
            && CitedAs(lib, limits, item, sofar.bytes, next.citations[|sofar.citations|])
  {
    var next := Cite(lib, limits, item, sofar);
    SnippetBytesAppend(sofar.citations, next.citations[|sofar.citations|]);
  }

  lemma {:induction false} CitesOnly(lib: Library, limits: Limits, items: seq<RawItem>, base: nat, from: nat,
                                     all: seq<Citation>)
    requires items != [] && |all| == from + 1 && from < limits.results && base + SnippetBytes(all) >= limits.bytes
    requires CitedAs(lib, limits, items[0], base + SnippetBytes(all[..from]), all[from])
    ensures Cites(lib, limits, items, base, from, all)
  {
    hide CitedAs, SnippetBytes;
  }

  lemma {:induction false} CitesMore(lib: Library, limits: Limits, items: seq<RawItem>, base: nat, from: nat,
                                     next: seq<Citation>, all: seq<Citation>)
    requires items != [] && |next| == from + 1 && next <= all && from < limits.results
    requires base + SnippetBytes(next) < limits.bytes
    requires CitedAs(lib, limits, items[0], base + SnippetBytes(next[..from]), next[from])
    requires Cites(lib, limits, items[1..], base, from + 1, all)
    ensures Cites(lib, limits, items, base, from, all)
  {
    hide CitedAs, SnippetBytes, InTurn;
    assert all[..from + 1] == next;
    forall k: nat | from <= k < |all| ensures InTurn(lib, limits, items, base, from, all, k) {
      if k == from {
        TurnFirst(lib, limits, items, base, from, next, all);
      } else {
        TurnLater(lib, limits, items, base, from, all, k);
      }
    }
  }

  lemma {:induction false} TurnFirst(lib: Library, limits: Limits, items: seq<RawItem>, base: nat, from: nat,
                                     next: seq<Citation>, all: seq<Citation>)
    requires items != [] && |next| == from + 1 && next <= all && from < limits.results
    requires CitedAs(lib, limits, items[0], base + SnippetBytes(next[..from]), next[from])
    ensures InTurn(lib, limits, items, base, from, all, from)
  {
    hide CitedAs, SnippetBytes;
    assert all[..from] == next[..from] && all[from] == next[from];
  }

  lemma {:induction false} TurnLater(lib: Library, limits: Limits, items: seq<RawItem>, base: nat, from: nat,
                                     all: seq<Citation>, k: nat)
    requires items != [] && from < k && InTurn(lib, limits, items[1..], base, from + 1, all, k)
    requires base + SnippetBytes(all[..from + 1]) < limits.bytes
    ensures InTurn(lib, limits, items, base, from, all, k)
  {
    hide CitedAs, SnippetBytes;
    assert items[1..][k - (from + 1)] == items[k - from];
  }

  // An answer's citations: the first allowed results.
  lemma CitationsAre(lib: Library, s: Session, k: Lookup, raw: seq<RawItem>)
    returns (items: seq<RawItem>, at: seq<nat>)
    ensures AllowedAt(lib, raw, items, at)
    ensures var (answer, after) := Deliver(lib, s, k, raw);
            && answer.query == k.query && Cites(lib, s.limits, items, s.bytes, 0, answer.citations)
            && after.bytes == s.bytes + SnippetBytes(answer.citations)
  {
    items, at := CitesInOrder(lib, s.limits, raw, Shaped([], s.bytes, false), s.bytes);
    hide Shape, Cites, AllowedAt;
  }

  // There is room for a search: time is left, and neither limit on searches is used up.
  ghost predicate HasRoom(s: Session, node: Node, now: real) {
    now <= s.started + s.limits.timeout && s.searches < s.limits.perRun && s.perNode[node] < s.limits.perNode
  }

  lemma PlayBegun(lib: Library, r: Run, check: Event, events: seq<Event>)
    ensures Play(lib, Step(lib, r, check), events) == Play(lib, r, [check] + events)
  {
    PlayOne(lib, r, [], check);
    assert [] + [check] == [check];
    PlayAppend(lib, r, [check], events);
    hide Step;
  }

  // What a search answers, in the order of its checks. It is paid for after its callback, at the
  // cost the other searches have left by then.
  lemma SearchAnswers(lib: Library, r: Run, mine: nat, k: Lookup, node: Node, now: real, around: Surroundings)
    requires mine !in r.checked && mine !in r.pending
    requires forall e :: e in around.emitting + around.calling ==> e.call != mine
    ensures var s := r.session;
            var a := Search(lib, r, mine, k, node, now, around).0;
            var asked := 0 < |k.query| <= s.limits.queryChars && k !in s.cache;
            var late := now > s.started + s.limits.timeout;
            var goes := asked && HasRoom(s, node, now) && !around.raised;
            var paid := Play(lib, r, [Check(mine, k, node, now)] + around.emitting).session.cost + s.limits.unitCost;
            && (a == Err(EmptyQuery) <==> k.query == "")
            && (a == Err(QueryTooLong) <==> |k.query| > s.limits.queryChars)
            && (0 < |k.query| <= s.limits.queryChars && k in s.cache ==> a == Ok(s.cache[k]))
            && (a == Err(TimedOut) <==> asked && late)
            && (a == Err(RunLimit) <==> asked && !late && s.searches >= s.limits.perRun)
            && (a == Err(NodeLimit) <==> asked && !late && s.searches < s.limits.perRun &&
                                         s.perNode[node] >= s.limits.perNode)
            && (a == Err(CallbackRaised) <==> asked && HasRoom(s, node, now) && around.raised)
            && (a == Err(CostLimit) <==> goes && paid > s.limits.maxCost)
            && (a == Err(ProviderFailed) <==> goes && paid <= s.limits.maxCost && around.reply == None)
  {
    hide Deliver, Play;
    var check := Check(mine, k, node, now);
    OthersKeep(lib, Step(lib, r, check), around.emitting, mine);
    PlayBegun(lib, r, check, around.emitting);
  }

  // A search that is neither refused nor cached answers with the citations of its reply, within the
  // bytes the session has left by then; the answer is cached under its key.
  lemma SearchDelivers(lib: Library, r: Run, mine: nat, k: Lookup, node: Node, now: real, around: Surroundings)
    returns (items: seq<RawItem>, at: seq<nat>)
    requires mine !in r.checked && mine !in r.pending
    requires forall e :: e in around.emitting + around.calling ==> e.call != mine
    ensures var (a, q) := Search(lib, r, mine, k, node, now, around);
            var begun := [Check(mine, k, node, now)] + around.emitting + [Count(mine)];
            var used := Play(lib, r, begun + around.calling).session.bytes;
            a.Ok? && k !in r.session.cache ==>
              && around.reply.Some? && AllowedAt(lib, around.reply.value, items, at)
              && Cites(lib, r.session.limits, items, used, 0, a.value.citations)
              && a.value.query == k.query && k in q.session.cache && q.session.cache[k] == a.value
              && q.session.bytes == used + SnippetBytes(a.value.citations)
  {
    hide Play, Cites, AllowedAt, SnippetBytes;
    var check, count := Check(mine, k, node, now), Count(mine);
    var begun := [check] + around.emitting;
    PlayBegun(lib, r, check, around.emitting);
    PlayOne(lib, r, begun, count);
    PlayAppend(lib, r, begun + [count], around.calling);
    OthersKeep(lib, Step(lib, r, check), around.emitting, mine);
    OthersKeep(lib, Play(lib, r, begun + [count]), around.calling, mine);
    items, at := [], [];
    if around.reply.Some? {
      items, at := CitationsAre(lib, Play(lib, r, begun + [count] + around.calling).session, k, around.reply.value);
    }
    hide Deliver, Look;
  }
}
