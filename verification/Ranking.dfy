/** Choosing, ranking and recommending models by score (nvidia_smartroute/routing/router.py,
    nvidia_smartroute/recommend.py). The score is any fixed function of the model. */
module Ranking {
  import opened Wrappers
  import opened Circuits
  import opened Ordering

  datatype TaskType =
    | CodeGeneration | CodeCompletion | CodeExplanation | CodeReview | CreativeWriting | Reasoning
    | Mathematics | Translation | Summarization | QuestionAnswering | Vision | Chat

  const TASKS := [
    CodeGeneration, CodeCompletion, CodeExplanation, CodeReview, CreativeWriting, Reasoning,
    Mathematics, Translation, Summarization, QuestionAnswering, Vision, Chat
  ]

  datatype Model = Model(id: ModelId, supported: set<TaskType>)

  function Supporting(models: seq<Model>, t: TaskType): (r: seq<Model>)
    ensures forall m :: m in r <==> m in models && t in m.supported
  {
    if models == [] then []
    else
      assert models == [models[0]] + models[1..];
      if t in models[0].supported then [models[0]] + Supporting(models[1..], t) else Supporting(models[1..], t)
  }

  // The models supporting the task, else the general ones, else all.
  function Suitable(models: seq<Model>, t: TaskType): seq<Model> {
    if Supporting(models, t) != [] then Supporting(models, t)
    else if Supporting(models, Chat) != [] then Supporting(models, Chat)
    else models
  }

  // Python's `max(s, key=score)`: the first model with the largest score.
  function Best(s: seq<Model>, score: Model -> real): (best: Model)
    requires s != []
    ensures best in s
  {
    if |s| == 1 then s[0]
    else
      var best := Best(s[..|s| - 1], score);
      if score(s[|s| - 1]) > score(best) then s[|s| - 1] else best
  }

  function Insert(m: Model, r: seq<Model>, score: Model -> real): seq<Model> {
    if r == [] || score(r[0]) <= score(m) then [m] + r else [r[0]] + Insert(m, r[1..], score)
  }

  // Python's `sorted(s, key=score, reverse=True)`, which keeps the order of equal scores.
  function Rank(s: seq<Model>, score: Model -> real): (r: seq<Model>)
    ensures multiset(r) == multiset(s) && |r| == |s|
  {
    if s == [] then []
    else
      assert s == [s[0]] + s[1..];
      InsertPermutes(s[0], Rank(s[1..], score), score);
      Insert(s[0], Rank(s[1..], score), score)
  }

  lemma {:induction false} InsertPermutes(m: Model, r: seq<Model>, score: Model -> real)
    ensures multiset(Insert(m, r, score)) == multiset{m} + multiset(r) && |Insert(m, r, score)| == |r| + 1
  {
    if r != [] && !(score(r[0]) <= score(m)) {
      InsertPermutes(m, r[1..], score);
      assert r == [r[0]] + r[1..];
    }
  }

  function SelectBestModel(models: seq<Model>, t: TaskType, score: Model -> real): Option<Model> {
    if Suitable(models, t) == [] then None else Some(Best(Suitable(models, t), score))
  }

  function RankModels(models: seq<Model>, t: TaskType, score: Model -> real): seq<Model> {
    Rank(Suitable(models, t), score)
  }

  // ---- What ranking means ----

  ghost predicate Descending(r: seq<Model>, score: Model -> real) {
    forall i, j :: 0 <= i < j < |r| ==> score(r[i]) >= score(r[j])
  }

  // The models with exactly that score, in the order of the sequence.
  ghost function Scoring(s: seq<Model>, score: Model -> real, v: real): seq<Model> {
    if s == [] then []
    else if score(s[0]) == v then [s[0]] + Scoring(s[1..], score, v)
    else Scoring(s[1..], score, v)
  }

  // r is s by descending score, models of equal score in the order s has them.
  ghost predicate IsRankingOf(r: seq<Model>, s: seq<Model>, score: Model -> real) {
    multiset(r) == multiset(s) && Descending(r, score) && forall v :: Scoring(r, score, v) == Scoring(s, score, v)
  }

  lemma {:induction false} InsertDescends(m: Model, r: seq<Model>, score: Model -> real)
    requires Descending(r, score)
    ensures Descending(Insert(m, r, score), score)
  {
    if r != [] && !(score(r[0]) <= score(m)) {
      var rest := Insert(m, r[1..], score);
      InsertDescends(m, r[1..], score);
      InsertPermutes(m, r[1..], score);
      hide Insert;
      forall x | x in rest ensures score(r[0]) >= score(x) {
        assert x in multiset(rest);
      }
    }
  }

  lemma {:induction false} InsertScores(m: Model, r: seq<Model>, score: Model -> real, v: real)
    ensures Scoring(Insert(m, r, score), score, v)
      == if score(m) == v then [m] + Scoring(r, score, v) else Scoring(r, score, v)
  {
    if r == [] || score(r[0]) <= score(m) {
      assert ([m] + r)[1..] == r;
    } else {
      var rest := Insert(m, r[1..], score);
      InsertScores(m, r[1..], score, v);
      assert ([r[0]] + rest)[1..] == rest;
    }
  }

  lemma {:induction false} RankScores(s: seq<Model>, score: Model -> real, v: real)
    ensures Descending(Rank(s, score), score) && Scoring(Rank(s, score), score, v) == Scoring(s, score, v)
  {
    if s != [] {
      RankScores(s[1..], score, v);
      hide Descending;
      InsertDescends(s[0], Rank(s[1..], score), score);
      InsertScores(s[0], Rank(s[1..], score), score, v);
    }
  }

  lemma RankIsRanking(s: seq<Model>, score: Model -> real)
    ensures IsRankingOf(Rank(s, score), s, score)
  {
    hide Descending, Scoring, Rank;
    RankScores(s, score, 0.0);
    forall v ensures Scoring(Rank(s, score), score, v) == Scoring(s, score, v) {
      RankScores(s, score, v);
    }
  }

  lemma {:induction false} ScoringMembers(r: seq<Model>, score: Model -> real, v: real)
    ensures forall m :: m in Scoring(r, score, v) <==> m in r && score(m) == v
  {
    if r != [] {
      ScoringMembers(r[1..], score, v);
      assert r == [r[0]] + r[1..];
    }
  }

  lemma HeadAtLeast(r: seq<Model>, score: Model -> real, v: real)
    requires Descending(r, score) && Scoring(r, score, v) != []
    ensures r != [] && score(r[0]) >= v
  {
    ScoringMembers(r, score, v);
    var m := Scoring(r, score, v)[0];
    assert m in Scoring(r, score, v);
    var i :| 0 <= i < |r| && r[i] == m;
  }

  lemma TailScoring(a: seq<Model>, b: seq<Model>, score: Model -> real, v: real)
    requires a != [] && b != [] && a[0] == b[0] && Scoring(a, score, v) == Scoring(b, score, v)
    ensures Scoring(a[1..], score, v) == Scoring(b[1..], score, v)
  {
    var m, x, y := a[0], Scoring(a[1..], score, v), Scoring(b[1..], score, v);
    assert ([m] + x)[1..] == x && ([m] + y)[1..] == y;
  }

  lemma {:induction false} SameScoring(a: seq<Model>, b: seq<Model>, score: Model -> real)
    requires Descending(a, score) && Descending(b, score)
    requires forall v :: Scoring(a, score, v) == Scoring(b, score, v)
    ensures a == b
  {
    if a != [] {
      assert Scoring(b, score, score(a[0])) == Scoring(a, score, score(a[0])) != [];
      HeadAtLeast(b, score, score(a[0]));
    }
    if b != [] {
      assert Scoring(a, score, score(b[0])) == Scoring(b, score, score(b[0])) != [];
      HeadAtLeast(a, score, score(b[0]));
      assert a[0] == Scoring(a, score, score(a[0]))[0] == b[0];
      forall v ensures Scoring(a[1..], score, v) == Scoring(b[1..], score, v) {
        TailScoring(a, b, score, v);
      }
      SameScoring(a[1..], b[1..], score);
      assert a == [a[0]] + a[1..] && b == [b[0]] + b[1..];
    }
  }

  // The ranking is a stable descending permutation of the suitable models, and the only one.
  lemma RankingExact(models: seq<Model>, t: TaskType, score: Model -> real, r: seq<Model>)
    ensures IsRankingOf(r, Suitable(models, t), score) <==> r == RankModels(models, t, score)
  {
    hide Descending, Scoring, Rank, Suitable;
    var s := Suitable(models, t);
    RankIsRanking(s, score);
    if IsRankingOf(r, s, score) { SameScoring(r, Rank(s, score), score); }
  }

  // Model i has the largest score, and every model before it a smaller one.
  ghost predicate FirstLargest(s: seq<Model>, score: Model -> real, i: nat) {
    i < |s| && forall j :: 0 <= j < |s| ==> score(s[j]) <= score(s[i]) && (j < i ==> score(s[j]) < score(s[i]))
  }

  lemma {:induction false} BestIsFirst(s: seq<Model>, score: Model -> real) returns (i: nat)
    requires s != []
    ensures FirstLargest(s, score, i) && s[i] == Best(s, score)
  {
    i := 0;
    if |s| > 1 {
      i := BestIsFirst(s[..|s| - 1], score);
      if score(s[|s| - 1]) > score(s[i]) { i := |s| - 1; }
    }
  }

  lemma {:induction false} ScoringHead(s: seq<Model>, score: Model -> real, i: nat)
    requires i < |s| && forall j :: 0 <= j < i ==> score(s[j]) != score(s[i])
    ensures Scoring(s, score, score(s[i])) != [] && Scoring(s, score, score(s[i]))[0] == s[i]
  {
    if i > 0 {
      ScoringHead(s[1..], score, i - 1);
      assert score(s[0]) != score(s[i]);
    }
  }

  // The first ranked model is the one `max` picks.
  lemma HeadIsBest(s: seq<Model>, score: Model -> real)
    requires s != []
    ensures Rank(s, score) != [] && Rank(s, score)[0] == Best(s, score)
  {
    var i := BestIsFirst(s, score);
    ScoringHead(s, score, i);
    RankIsRanking(s, score);
    hide Best, Rank;
    var r := Rank(s, score);
    assert Scoring(r, score, score(s[i])) == Scoring(s, score, score(s[i]));
    HeadAtLeast(r, score, score(s[i]));
    assert r[0] in multiset(s);
    ScoringHead(r, score, 0);
  }

  lemma SelectionHeadsRanking(models: seq<Model>, t: TaskType, score: Model -> real)
    ensures SelectBestModel(models, t, score) == if models == [] then None else Some(RankModels(models, t, score)[0])
  {
    hide Rank, Best;
    if Suitable(models, t) != [] { HeadIsBest(Suitable(models, t), score); }
    assert models != [] ==> Suitable(models, t) != [];
  }

  // ---- Recommendations ----

  // Python's `round` of a number to the nearest integer, halves to the even one.
  function RoundEven(y: real): int {
    var f := y.Floor;
    var part := y - f as real;
    if part < 0.5 then f else if part > 0.5 then f + 1 else if f % 2 == 0 then f else f + 1
  }

  // `round(x, 3)`.
  function Round3(x: real): real {
    RoundEven(x * 1000.0) as real / 1000.0
  }

  // The part of full confidence a margin is worth.
  function Share(margin: real, reference: real): real
    requires reference > 0.0
  {
    if margin / reference < 1.0 then margin / reference else 1.0
  }

  // The confidence for a margin: full at five times the threshold, linear below.
  function ConfidenceOf(margin: real, threshold: real): real
    requires threshold >= 0.0
  {
    var reference := if threshold * 5.0 != 0.0 then threshold * 5.0 else 0.1;
    Round3(Share(margin, reference))
  }

  function Margin(ranked: seq<Model>, score: Model -> real): real
    requires |ranked| >= 2
  {
    var margin := score(ranked[0]) - score(ranked[1]);
    if margin > 0.0 then margin else 0.0
  }

  // `_confidence`: the confidence and whether it is low.
  function Confidence(ranked: seq<Model>, score: Model -> real, threshold: real): (real, bool)
    requires threshold >= 0.0
  {
    if |ranked| < 2 then (1.0, false)
    else (ConfidenceOf(Margin(ranked, score), threshold), Margin(ranked, score) < threshold)
  }

  datatype Recommendation =
    | Unsupported
    | Recommended(model: ModelId, confidence: real, low: bool, alternatives: seq<ModelId>)

  method RecommendAll(models: seq<Model>, score: Model -> real, threshold: real)
    returns (out: map<TaskType, Recommendation>)
    requires threshold >= 0.0
    ensures forall t :: t in out && Recommends(models, score, threshold, t, out[t])
  {
    hide Rank, Supporting, Confidence, RankModels, SelectBestModel, Best;
    out := map[];
    for i := 0 to |TASKS|
      invariant forall k :: 0 <= k < i ==> TASKS[k] in out
      invariant forall t :: t in out ==> Recommends(models, score, threshold, t, out[t])
    {
      var task := TASKS[i];
      var supporting := Supporting(models, task);
      if supporting == [] {
        out := out[task := Unsupported];
        continue;
      }
      var ranked := Rank(supporting, score);
      SupportedAgree(models, task, score);
      var (confidence, low) := Confidence(ranked, score, threshold);
      var alternatives := Ids(ranked[1..if |ranked| < 3 then |ranked| else 3]);
      out := out[task := Recommended(ranked[0].id, confidence, low, alternatives)];
    }
    forall t: TaskType ensures t in out {
      EveryTask(t);
    }
  }

  function Ids(models: seq<Model>): (ids: seq<ModelId>)
    ensures |ids| == |models| && forall i :: 0 <= i < |ids| ==> ids[i] == models[i].id
  {
    seq(|models|, i requires 0 <= i < |models| => models[i].id)
  }

  lemma EveryTask(t: TaskType)
    ensures t in TASKS
  {
    match t
    case CodeGeneration => assert TASKS[0] == t;
    case CodeCompletion => assert TASKS[1] == t;
    case CodeExplanation => assert TASKS[2] == t;
    case CodeReview => assert TASKS[3] == t;
    case CreativeWriting => assert TASKS[4] == t;
    case Reasoning => assert TASKS[5] == t;
    case Mathematics => assert TASKS[6] == t;
    case Translation => assert TASKS[7] == t;
    case Summarization => assert TASKS[8] == t;
    case QuestionAnswering => assert TASKS[9] == t;
    case Vision => assert TASKS[10] == t;
    case Chat => assert TASKS[11] == t;
  }

  // What a recommendation says, in terms of what routing does with the task.
  ghost predicate Recommends(models: seq<Model>, score: Model -> real, threshold: real, t: TaskType, r: Recommendation)
    requires threshold >= 0.0
  {
    var ranked := RankModels(models, t, score);
    if !(exists m :: m in models && t in m.supported) then r == Unsupported
    else
      && r.Recommended? && SelectBestModel(models, t, score).Some? &&
        r.model == SelectBestModel(models, t, score).value.id
      && (r.confidence, r.low) == Confidence(ranked, score, threshold)
      && |r.alternatives| == (if |ranked| < 3 then |ranked| - 1 else 2)
      && forall i :: 0 <= i < |r.alternatives| ==> r.alternatives[i] == ranked[i + 1].id
  }

  // For a task some model supports, the recommendation ranks what routing ranks.
  lemma SupportedAgree(models: seq<Model>, t: TaskType, score: Model -> real)
    requires Supporting(models, t) != []
    ensures RankModels(models, t, score) == Rank(Supporting(models, t), score) != []
    ensures SelectBestModel(models, t, score) == Some(Rank(Supporting(models, t), score)[0])
    ensures exists m :: m in models && t in m.supported
  {
    SelectionHeadsRanking(models, t, score);
    assert Supporting(models, t)[0] in Supporting(models, t);
    hide Rank, Best;
  }

  lemma RoundMonotone(y: real, z: real)
    requires y <= z
    ensures RoundEven(y) <= RoundEven(z)
  {
    assert y.Floor <= z.Floor;
  }

  // Confidence lies in [0,1], grows with the margin, and is full from five thresholds on; a low
  // one is at most a fifth, any other at least a fifth.
  lemma ConfidenceScale(margin: real, larger: real, threshold: real)
    requires 0.0 <= margin <= larger && threshold >= 0.0
    ensures 0.0 <= ConfidenceOf(margin, threshold) <= ConfidenceOf(larger, threshold) <= 1.0
    ensures margin >= 5.0 * threshold && margin >= 0.1 ==> ConfidenceOf(margin, threshold) == 1.0
    ensures 0.0 < threshold && margin < threshold ==> ConfidenceOf(margin, threshold) <= 0.2
    ensures 0.0 < threshold <= margin ==> ConfidenceOf(margin, threshold) >= 0.2
  {
    hide Round3, Share;
    var reference := if threshold * 5.0 != 0.0 then threshold * 5.0 else 0.1;
    ShareFacts(margin, larger, reference);
    Round3Monotone(0.0, Share(margin, reference));
    Round3Monotone(Share(margin, reference), Share(larger, reference));
    Round3Monotone(Share(larger, reference), 1.0);
    Round3Monotone(Share(margin, reference), 0.2);
    Round3Monotone(0.2, Share(margin, reference));
    Round3Fixed();
  }

  lemma ShareFacts(margin: real, larger: real, reference: real)
    requires 0.0 <= margin <= larger && reference > 0.0
    ensures 0.0 <= Share(margin, reference) <= Share(larger, reference) <= 1.0
    ensures margin >= reference ==> Share(margin, reference) == 1.0
    ensures if 5.0 * margin < reference then Share(margin, reference) <= 0.2 else Share(margin, reference) >= 0.2
  {
    Quotient(0.0, margin, reference);
    Quotient(margin, larger, reference);
    Quotient(reference, margin, reference);
    Quotient(margin, 0.2 * reference, reference);
    Quotient(0.2 * reference, margin, reference);
  }

  lemma Quotient(x: real, y: real, d: real)
    requires d > 0.0
    ensures x <= y ==> x / d <= y / d
    ensures 0.0 / d == 0.0 && d / d == 1.0 && 0.2 * d / d == 0.2
  {
    var p, q := x / d, y / d;
    assert p * d == x && q * d == y;
    if p > q {
      assert (p - q) * d > 0.0;
    }
  }

  lemma Round3Monotone(x: real, y: real)
    ensures x <= y ==> Round3(x) <= Round3(y)
  {
    if x <= y { RoundMonotone(x * 1000.0, y * 1000.0); }
  }

  lemma Round3Fixed()
    ensures Round3(0.0) == 0.0 && Round3(0.2) == 0.2 && Round3(1.0) == 1.0
  {
  }

  // ---- Against the registry and the two best scores ----

  // The registry offers m for the task: it supports it; or no model does and m is a general one; or
  // there is neither.
  ghost predicate Offers(models: seq<Model>, t: TaskType, m: Model) {
    var supported := exists x :: x in models && t in x.supported;
    var general := exists x :: x in models && Chat in x.supported;
    m in models && if supported then t in m.supported else if general then Chat in m.supported else true
  }

  lemma {:induction false} SupportingInOrder(models: seq<Model>, t: TaskType) returns (at: seq<nat>)
    ensures Picks(Supporting(models, t), models, at, (m: Model) => t in m.supported)
  {
    at := [];
    if models != [] {
      hide Picks;
      var rest := SupportingInOrder(models[1..], t);
      at := PickNext(Supporting(models[1..], t), models, rest, (m: Model) => t in m.supported);
    }
  }

  // Selection and ranking are over exactly the models offered, in registry order.
  lemma SuitableIs(models: seq<Model>, t: TaskType) returns (at: seq<nat>)
    ensures Picks(Suitable(models, t), models, at, (m: Model) => Offers(models, t, m))
  {
    hide Supporting, Offers;
    forall i | 0 <= i < |models| ensures OfferedAs(models, t, models[i]) {
      OffersWhen(models, t, models[i]);
    }
    if Supporting(models, t) != [] {
      at := SupportingInOrder(models, t);
    } else if Supporting(models, Chat) != [] {
      at := SupportingInOrder(models, Chat);
    } else {
      at := seq(|models|, k requires 0 <= k < |models| => k as nat);
      assert forall i: nat :: i < |models| ==> at[i] == i;
    }
  }

  ghost predicate OfferedAs(models: seq<Model>, t: TaskType, m: Model) {
    Offers(models, t, m) <==>
      if Supporting(models, t) != [] then t in m.supported
      else Supporting(models, Chat) != [] ==> Chat in m.supported
  }

  lemma OffersWhen(models: seq<Model>, t: TaskType, m: Model)
    requires m in models
    ensures OfferedAs(models, t, m)
  {
    assert Supporting(models, t) != [] ==> Supporting(models, t)[0] in Supporting(models, t);
    assert Supporting(models, Chat) != [] ==> Supporting(models, Chat)[0] in Supporting(models, Chat);
    hide Supporting;
  }

  // The selected model is offered, no offered model scores higher, and there is one unless the
  // registry is empty.
  lemma {:induction false} SelectionIs(models: seq<Model>, t: TaskType, score: Model -> real)
    ensures SelectBestModel(models, t, score) == None <==> models == []
    ensures var best := SelectBestModel(models, t, score);
            best.Some? ==>
              && Offers(models, t, best.value)
              && forall m :: Offers(models, t, m) ==> score(m) <= score(best.value)
  {
    hide Best, Supporting, Offers;
    var at := SuitableIs(models, t);
    var s := Suitable(models, t);
    if s != [] {
      var i := BestIsFirst(s, score);
      assert models[at[i]] == s[i] && at[i] in at;
      forall m | Offers(models, t, m) ensures score(m) <= score(s[i]) {
        OfferedIn(models, t, m);
        var j: nat :| j < |models| && models[j] == m;
        assert j in at;
        var k :| 0 <= k < |at| && at[k] == j;
        assert s[k] == m;
      }
    }
  }

  lemma {:induction false} OfferedIn(models: seq<Model>, t: TaskType, m: Model)
    requires Offers(models, t, m)
    ensures exists j: nat :: j < |models| && models[j] == m
  {
  }

  // The confidence in a ranking of two or more: its margin is the difference of the two best scores,
  // it is low exactly when that is below the threshold, and its value is, to the nearest thousandth,
  // the margin's share of five thresholds (of 0.1 without a threshold), one at most.
  lemma {:induction false} ConfidenceIs(ranked: seq<Model>, score: Model -> real, threshold: real)
    requires threshold >= 0.0 && Descending(ranked, score)
    ensures |ranked| < 2 ==> Confidence(ranked, score, threshold) == (1.0, false)
    ensures |ranked| >= 2 ==>
      var (confidence, low) := Confidence(ranked, score, threshold);
      var margin := score(ranked[0]) - score(ranked[1]);
      && (forall k :: 2 <= k < |ranked| ==> score(ranked[k]) <= score(ranked[1]) <= score(ranked[0]))
      && (low <==> margin < threshold)
      && NearShare(confidence, margin, if threshold > 0.0 then 5.0 * threshold else 0.1)
  {
    hide Round3, Share;
    if |ranked| >= 2 {
      var margin := score(ranked[0]) - score(ranked[1]);
      var reference := if threshold > 0.0 then 5.0 * threshold else 0.1;
      NearlyShare(margin, reference);
    }
  }

  // A multiple of a thousandth within half a thousandth of min(1, margin / reference).
  ghost predicate NearShare(confidence: real, margin: real, reference: real)
    requires reference > 0.0
  {
    var share := if margin < reference then margin / reference else 1.0;
    && share - 0.0005 <= confidence <= share + 0.0005
    && (confidence * 1000.0).Floor as real == confidence * 1000.0
  }

  lemma {:induction false} NearlyShare(margin: real, reference: real)
    requires reference > 0.0
    ensures NearShare(Round3(Share(margin, reference)), margin, reference)
  {
    Quotient(margin, reference, reference);
    Quotient(reference, margin, reference);
    var n := RoundEven(Share(margin, reference) * 1000.0);
    assert Round3(Share(margin, reference)) * 1000.0 == n as real;
    if margin < reference { StrictQuotient(margin, reference); }
  }

  lemma {:induction false} StrictQuotient(x: real, d: real)
    requires 0.0 < d && x < d
    ensures x / d < 1.0
  {
    var q := x / d;
    assert (1.0 - q) * d == d - x;
    assert q >= 1.0 ==> (1.0 - q) * d <= 0.0;
  }
}
