/** The verify-and-refine loop (nvidia_smartroute/parkour/refinement.py). */
module Refinement {
  import opened Wrappers

  datatype Verdict = Verdict(score: real, accept: bool, feedback: string)

  datatype VerifyOutcome = VerifyOutcome(verdict: Verdict, tokens: int, cost: real)

  datatype ReviseOutcome = ReviseOutcome(text: string, tokens: int, cost: real)

  datatype Limits = Limits(
    maxIterations: nat, maxVerifierCalls: nat, maxRevisionCalls: nat, timeout: real,
    maxAddedTokens: int, maxAddedCost: real, acceptThreshold: real, minImprovement: real, feedbackChars: nat
  )

  datatype StopReason = MaxIterations | ResourceLimit | VerifierFailed | NoImprovement | Accepted | RevisionFailed

  // The outside world of one run: the i-th verification and revision (None when it raises), and
  // the time elapsed when the i-th guard is evaluated.
  datatype World = World(
    verify: (nat, string) -> Option<VerifyOutcome>,
    revise: (nat, string, string) -> Option<ReviseOutcome>,
    elapsed: nat -> real
  )

  datatype RefinementResult = RefinementResult(
    output: string, bestScore: Option<real>, iterations: nat, verifierCalls: nat, revisionCalls: nat,
    accepted: bool, verified: bool, stopReason: StopReason, addedTokens: int, addedCost: real
  )

  // ---- The candidates of a run ----

  // The i-th candidate: the initial text, then each revision of the one before with its feedback.
  ghost function Candidate(w: World, limits: Limits, initial: string, i: nat): Option<string> {
    if i == 0 then Some(initial)
    else
      var before := Candidate(w, limits, initial, i - 1);
      if before == None then None
      else
        var v := w.verify(i - 1, before.value);
        if v == None then None
        else
          var r := w.revise(i - 1, before.value, Clip(v.value.verdict.feedback, limits.feedbackChars));
          if r == None then None else Some(r.value.text)
  }

  ghost function Verification(w: World, limits: Limits, initial: string, i: nat): Option<VerifyOutcome> {
    var c := Candidate(w, limits, initial, i);
    if c == None then None else w.verify(i, c.value)
  }

  ghost function Revision(w: World, limits: Limits, initial: string, i: nat): Option<ReviseOutcome> {
    var c, v := Candidate(w, limits, initial, i), Verification(w, limits, initial, i);
    if v == None then None
    else w.revise(i, c.value, Clip(v.value.verdict.feedback, limits.feedbackChars))
  }

  ghost predicate Scored(w: World, limits: Limits, initial: string, i: nat) {
    Verification(w, limits, initial, i).Some?
  }

  ghost function Score(w: World, limits: Limits, initial: string, i: nat): real
    requires Scored(w, limits, initial, i)
  {
    Verification(w, limits, initial, i).value.verdict.score
  }

  // Tokens and cost of the first v verifications and r revisions.
  ghost function Tokens(w: World, limits: Limits, initial: string, v: nat, r: nat): int
    requires forall i: nat :: i < v ==> Scored(w, limits, initial, i)
    requires forall i: nat :: i < r ==> Revision(w, limits, initial, i).Some?
  {
    if v > r then
      assert Scored(w, limits, initial, v - 1);
      Tokens(w, limits, initial, v - 1, r) + Verification(w, limits, initial, v - 1).value.tokens
    else if r > 0 then Tokens(w, limits, initial, v, r - 1) + Revision(w, limits, initial, r - 1).value.tokens
    else 0
  }

  ghost function Cost(w: World, limits: Limits, initial: string, v: nat, r: nat): real
    requires forall i: nat :: i < v ==> Scored(w, limits, initial, i)
    requires forall i: nat :: i < r ==> Revision(w, limits, initial, i).Some?
  {
    if v > r then
      assert Scored(w, limits, initial, v - 1);
      Cost(w, limits, initial, v - 1, r) + Verification(w, limits, initial, v - 1).value.cost
    else if r > 0 then Cost(w, limits, initial, v, r - 1) + Revision(w, limits, initial, r - 1).value.cost
    else 0.0
  }

  // ---- The decisions ----

  function PreVerifyStop(elapsed: real, verifierCalls: nat, limits: Limits): Option<StopReason> {
    if elapsed > limits.timeout then Some(ResourceLimit)
    else if verifierCalls >= limits.maxVerifierCalls then Some(ResourceLimit)
    else None
  }

  function StopAfterScore(prevScore: Option<real>, addedTokens: int, addedCost: real, iterations: nat,
                          revisionCalls: nat,
                          verdict: Verdict, limits: Limits): Option<StopReason>
  {
    if prevScore.Some? && verdict.score - prevScore.value < limits.minImprovement then Some(NoImprovement)
    else if addedTokens > limits.maxAddedTokens || addedCost > limits.maxAddedCost then Some(ResourceLimit)
    else if verdict.accept && verdict.score >= limits.acceptThreshold then Some(Accepted)
    else if iterations >= limits.maxIterations then Some(MaxIterations)
    else if revisionCalls >= limits.maxRevisionCalls then Some(ResourceLimit)
    else None
  }

  // ---- The run as a function of the world ----

  // The run reaches pass n: every earlier pass scored its candidate and revised it.
  ghost predicate Reaches(w: World, limits: Limits, initial: string, n: nat) {
    forall i: nat :: i < n ==> Scored(w, limits, initial, i) && Revision(w, limits, initial, i).Some?
  }

  ghost function PrevScore(w: World, limits: Limits, initial: string, n: nat): Option<real>
    requires Reaches(w, limits, initial, n)
  {
    if n == 0 then None else Some(Score(w, limits, initial, n - 1))
  }

  // The verdict on pass n once its candidate has been scored.
  ghost function Judgement(w: World, limits: Limits, initial: string, n: nat): Option<StopReason>
    requires Reaches(w, limits, initial, n) && Scored(w, limits, initial, n)
  {
    StopAfterScore(PrevScore(w, limits, initial, n),
                   Tokens(w, limits, initial, n + 1, n), Cost(w, limits, initial, n + 1, n),
                   n, n, Verification(w, limits, initial, n).value.verdict, limits)
  }

  // Why pass n is the last one, or None when it hands a revised candidate to the next.
  ghost function Halt(w: World, limits: Limits, initial: string, n: nat): Option<StopReason>
    requires Reaches(w, limits, initial, n)
  {
    if PreVerifyStop(w.elapsed(n), n, limits).Some? then PreVerifyStop(w.elapsed(n), n, limits)
    else if !Scored(w, limits, initial, n) then Some(VerifierFailed)
    else if Judgement(w, limits, initial, n).Some? then Judgement(w, limits, initial, n)
    else if Revision(w, limits, initial, n) == None then Some(RevisionFailed)
    else None
  }

  ghost predicate Passes(w: World, limits: Limits, initial: string, n: nat) {
    && Reaches(w, limits, initial, n)
    && forall i: nat :: i < n ==> Halt(w, limits, initial, i) == None
  }

  ghost predicate EndsAt(w: World, limits: Limits, initial: string, n: nat) {
    Passes(w, limits, initial, n) && Halt(w, limits, initial, n).Some?
  }

  // Pass n verified its candidate before it ended the run.
  ghost predicate VerifiedLast(w: World, limits: Limits, initial: string, n: nat) {
    PreVerifyStop(w.elapsed(n), n, limits) == None && Scored(w, limits, initial, n)
  }

  ghost function Calls(w: World, limits: Limits, initial: string, n: nat): nat {
    if VerifiedLast(w, limits, initial, n) then n + 1 else n
  }

  // The earliest candidate of maximal score among the first v.
  ghost function BestIndex(w: World, limits: Limits, initial: string, v: nat): (b: nat)
    requires v >= 1 && forall i: nat :: i < v ==> Scored(w, limits, initial, i)
    ensures b < v
    ensures forall j: nat :: j < v ==> Score(w, limits, initial, j) <= Score(w, limits, initial, b)
    ensures forall j: nat :: j < b ==> Score(w, limits, initial, j) < Score(w, limits, initial, b)
  {
    if v == 1 then 0
    else
      var b := BestIndex(w, limits, initial, v - 1);
      if Score(w, limits, initial, v - 1) > Score(w, limits, initial, b) then v - 1 else b
  }

  ghost function BestText(w: World, limits: Limits, initial: string, v: nat): string
    requires forall i: nat :: i < v ==> Scored(w, limits, initial, i)
  {
    if v == 0 then initial
    else
      var b := BestIndex(w, limits, initial, v);
      assert Scored(w, limits, initial, b);
      Candidate(w, limits, initial, b).value
  }

  ghost function BestScore(w: World, limits: Limits, initial: string, v: nat): Option<real>
    requires forall i: nat :: i < v ==> Scored(w, limits, initial, i)
  {
    if v == 0 then None else Some(Score(w, limits, initial, BestIndex(w, limits, initial, v)))
  }

  ghost function Outcome(w: World, limits: Limits, initial: string, n: nat): RefinementResult
    requires EndsAt(w, limits, initial, n)
  {
    var v, reason := Calls(w, limits, initial, n), Halt(w, limits, initial, n).value;
    RefinementResult(
      BestText(w, limits, initial, v), BestScore(w, limits, initial, v),
      if reason == RevisionFailed then n + 1 else n, v, n,
      reason == Accepted, v > 0, reason, Tokens(w, limits, initial, v, n), Cost(w, limits, initial, v, n))
  }

  class LoopState {
    var bestText: string
    var bestScore: Option<real>
    var current: string
    var prevScore: Option<real>
    var iterations: nat
    var verifierCalls: nat
    var revisionCalls: nat
    var addedTokens: int
    var addedCost: real
    var verified: bool
    var accepted: bool

    constructor (initial: string)
      ensures bestText == current == initial && bestScore == prevScore == None
      ensures iterations == verifierCalls == revisionCalls == 0 && addedTokens == 0 && addedCost == 0.0
      ensures !verified && !accepted
    {
      bestText, current, bestScore, prevScore := initial, initial, None, None;
      iterations, verifierCalls, revisionCalls, addedTokens, addedCost := 0, 0, 0, 0, 0.0;
      verified, accepted := false, false;
    }

    // The state at the head of pass n.
    ghost predicate AtHead(w: World, limits: Limits, initial: string, n: nat)
      reads this
    {
      && Passes(w, limits, initial, n)
      && Some(current) == Candidate(w, limits, initial, n) && prevScore == PrevScore(w, limits, initial, n)
      && iterations == verifierCalls == revisionCalls == n
      && Books(w, limits, initial, n, n)
    }

    // The accounts after v verifications and r revisions.
    ghost predicate Books(w: World, limits: Limits, initial: string, v: nat, r: nat)
      requires Reaches(w, limits, initial, r) && (v == r || (v == r + 1 && Scored(w, limits, initial, r)))
      reads this
    {
      && verifierCalls == v && revisionCalls == r
      && bestText == BestText(w, limits, initial, v) && bestScore == BestScore(w, limits, initial, v)
      && addedTokens == Tokens(w, limits, initial, v, r) && addedCost == Cost(w, limits, initial, v, r)
      && verified == (v > 0) && !accepted
    }

    method Consider(text: string, score: real)
      modifies `bestText, `bestScore
      ensures if old(bestScore) == None || score > old(bestScore.value)
        then bestText == text && bestScore == Some(score)
        else bestText == old(bestText) && bestScore == old(bestScore)
    {
      if bestScore == None || score > bestScore.value {
        bestText, bestScore := text, Some(score);
      }
    }

    method VerifyStep(w: World, limits: Limits, ghost initial: string, n: nat) returns (verdict: Option<Verdict>)
      requires AtHead(w, limits, initial, n)
      modifies this
      ensures verdict.Some? <==> Scored(w, limits, initial, n)
      ensures current == old(current) && prevScore == old(prevScore) && iterations == old(iterations)
      ensures verdict == None ==> Books(w, limits, initial, n, n)
      ensures verdict.Some? ==> Books(w, limits, initial, n + 1, n)
      ensures verdict.Some? ==> verdict.value == Verification(w, limits, initial, n).value.verdict
    {
      var outcome := w.verify(n, current);
      if outcome == None {
        return None;
      }
      verifierCalls := verifierCalls + 1;
      addedTokens := addedTokens + outcome.value.tokens;
      addedCost := addedCost + outcome.value.cost;
      verified := true;
      Consider(current, outcome.value.verdict.score);
      verdict := Some(outcome.value.verdict);
    }

    method ReviseStep(w: World, limits: Limits, ghost initial: string, n: nat, verdict: Verdict) returns (ok: bool)
      requires Reaches(w, limits, initial, n) && Scored(w, limits, initial, n) && Books(w, limits, initial, n + 1, n)
      requires Some(current) == Candidate(w, limits, initial, n) && iterations == n
      requires verdict == Verification(w, limits, initial, n).value.verdict
      modifies this
      ensures ok <==> Revision(w, limits, initial, n).Some?
      ensures iterations == n + 1 && prevScore == old(prevScore)
      ensures !ok ==> Books(w, limits, initial, n + 1, n)
      ensures ok ==> Books(w, limits, initial, n + 1, n + 1) && Some(current) == Candidate(w, limits, initial, n + 1)
    {
      iterations := iterations + 1;
      var feedback := Clip(verdict.feedback, limits.feedbackChars);
      var revised := w.revise(n, current, feedback);
      if revised == None {
        return false;
      }
      revisionCalls := revisionCalls + 1;
      addedTokens := addedTokens + revised.value.tokens;
      addedCost := addedCost + revised.value.cost;
      current := revised.value.text;
      ok := true;
    }

    function Result(stopReason: StopReason): RefinementResult
      reads this
    {
      RefinementResult(bestText, bestScore, iterations, verifierCalls, revisionCalls, accepted, verified, stopReason,
                       addedTokens, addedCost)
    }
  }

  lemma AtStart(state: LoopState, w: World, limits: Limits, initial: string)
    requires state.bestText == state.current == initial && state.bestScore == state.prevScore == None
    requires state.iterations == state.verifierCalls == state.revisionCalls == 0
    requires state.addedTokens == 0 && state.addedCost == 0.0 && !state.verified && !state.accepted
    ensures state.AtHead(w, limits, initial, 0)
  {
  }

  // The loop always ends, and its result is the outcome of the first pass that halts.
  method RunRefinement(initial: string, w: World, limits: Limits) returns (r: RefinementResult)
    ensures exists n: nat :: EndsAt(w, limits, initial, n) && r == Outcome(w, limits, initial, n)
  {
    hide Tokens, Cost, BestText, BestScore, Candidate, Revision, Verification;
    var state := new LoopState(initial);
    var pass: nat := 0;
    AtStart(state, w, limits, initial);
    while true
      invariant state.AtHead(w, limits, initial, pass)
      decreases limits.maxVerifierCalls - pass
    {
      var guard := PreVerifyStop(w.elapsed(pass), state.verifierCalls, limits);
      if guard.Some? {
        assert EndsAt(w, limits, initial, pass);
        return state.Result(guard.value);
      }
      var verdict := state.VerifyStep(w, limits, initial, pass);
      if verdict == None {
        assert EndsAt(w, limits, initial, pass);
        return state.Result(VerifierFailed);
      }
      var stop := StopAfterScore(state.prevScore, state.addedTokens, state.addedCost, state.iterations,
                                 state.revisionCalls, verdict.value, limits);
      if stop.Some? {
        if stop == Some(Accepted) {
          state.accepted := true;
        }
        assert EndsAt(w, limits, initial, pass);
        return state.Result(stop.value);
      }
      var ok := state.ReviseStep(w, limits, initial, pass, verdict.value);
      if !ok {
        assert EndsAt(w, limits, initial, pass);
        return state.Result(RevisionFailed);
      }
      state.prevScore := Some(verdict.value.score);
      pass := pass + 1;
    }
  }

  // ---- What every run guarantees ----

  // A run ends at one pass only, so its result is determined by the outside world.
  lemma {:induction false} EndUnique(w: World, limits: Limits, initial: string, m: nat, n: nat)
    requires EndsAt(w, limits, initial, m) && EndsAt(w, limits, initial, n)
    ensures m == n
  {
    hide Halt;
  }

  lemma {:induction false} PassCosts(w: World, limits: Limits, initial: string, n: nat)
    requires Reaches(w, limits, initial, n) && Halt(w, limits, initial, n) == None
    ensures n < limits.maxVerifierCalls && n < limits.maxIterations && n < limits.maxRevisionCalls
    ensures Scored(w, limits, initial, n) && Tokens(w, limits, initial, n + 1, n) <= limits.maxAddedTokens
    ensures Cost(w, limits, initial, n + 1, n) <= limits.maxAddedCost
    ensures n > 0 ==> Score(w, limits, initial, n) - Score(w, limits, initial, n - 1) >= limits.minImprovement
  {
  }

  lemma {:induction false} CallBounds(w: World, limits: Limits, initial: string, n: nat)
    requires EndsAt(w, limits, initial, n)
    ensures var r := Outcome(w, limits, initial, n);
            && r.verifierCalls <= limits.maxVerifierCalls
            && r.verifierCalls <= limits.maxIterations + 1 && r.verifierCalls <= limits.maxRevisionCalls + 1
            && r.iterations <= limits.maxIterations && r.revisionCalls <= limits.maxRevisionCalls
            && r.revisionCalls <= r.verifierCalls <= r.revisionCalls + 1
  {
    hide Score, Revision, Verification, Candidate, Tokens, Cost, BestText, BestScore;
    if n > 0 {
      PassCosts(w, limits, initial, n - 1);
    }
  }

  lemma {:induction false} Climb(w: World, limits: Limits, initial: string, n: nat, k: nat)
    requires Passes(w, limits, initial, n) && k < n
    ensures Scored(w, limits, initial, 0) && Scored(w, limits, initial, k)
    ensures Score(w, limits, initial, k) >= Score(w, limits, initial, 0) + k as real * limits.minImprovement
  {
    if k > 0 {
      Climb(w, limits, initial, n, k - 1);
      PassCosts(w, limits, initial, k);
      assert k as real * limits.minImprovement == (k - 1) as real * limits.minImprovement + limits.minImprovement;
    }
  }

  lemma {:induction false} RiseBound(w: World, limits: Limits, initial: string, n: nat)
    requires EndsAt(w, limits, initial, n) && n > 0
    requires forall i: nat :: i < n ==> Scored(w, limits, initial, i) && 0.0 <= Score(w, limits, initial, i) <= 1.0
    ensures (n - 1) as real * limits.minImprovement <= 1.0
  {
    Climb(w, limits, initial, n, n - 1);
    hide Score, Scored;
  }

  lemma {:induction false} CallsAtMost(w: World, limits: Limits, initial: string, n: nat)
    requires EndsAt(w, limits, initial, n)
    ensures Outcome(w, limits, initial, n).verifierCalls <= n + 1
    ensures forall i: nat :: i < n ==> Scored(w, limits, initial, i)
  {
  }

  // Scores in [0, 1] that must rise by a margin cannot be asked for long.
  lemma {:induction false} MarginBound(w: World, limits: Limits, initial: string, n: nat)
    requires EndsAt(w, limits, initial, n) && limits.minImprovement >= 0.0
    requires forall i: nat :: i < n ==> 0.0 <= Score(w, limits, initial, i) <= 1.0
    ensures (Outcome(w, limits, initial, n).verifierCalls - 2) as real * limits.minImprovement <= 1.0
  {
    hide *;
    var v: int := Outcome(w, limits, initial, n).verifierCalls;
    CallsAtMost(w, limits, initial, n);
    if n > 0 {
      RiseBound(w, limits, initial, n);
      Scale(v - 2, n - 1, limits.minImprovement);
    } else {
      Scale(v - 2, 0, limits.minImprovement);
    }
  }

  lemma Scale(a: int, b: int, m: real)
    requires a <= b && m >= 0.0
    ensures a as real * m <= b as real * m
  {
  }

  // Spending passes its cap by at most the last revision and the last verification.
  lemma {:induction false} SpendingBound(w: World, limits: Limits, initial: string, n: nat)
    requires EndsAt(w, limits, initial, n) && limits.maxAddedTokens >= 0 && limits.maxAddedCost >= 0.0
    ensures var r := Outcome(w, limits, initial, n);
            && r.addedTokens <= limits.maxAddedTokens
                 + (if n > 0 then Revision(w, limits, initial, n - 1).value.tokens else 0)
                 + (if r.verifierCalls > n then Verification(w, limits, initial, n).value.tokens else 0)
            && r.addedCost <= limits.maxAddedCost
                 + (if n > 0 then Revision(w, limits, initial, n - 1).value.cost else 0.0)
                 + (if r.verifierCalls > n then Verification(w, limits, initial, n).value.cost else 0.0)
  {
    SpendingSteps(w, limits, initial, n);
    hide Tokens, Cost, Candidate;
    if n > 0 {
      PassCosts(w, limits, initial, n - 1);
    }
  }

  lemma {:induction false} SpendingSteps(w: World, limits: Limits, initial: string, n: nat)
    requires Reaches(w, limits, initial, n)
    ensures n == 0 ==> Tokens(w, limits, initial, 0, 0) == 0 && Cost(w, limits, initial, 0, 0) == 0.0
    ensures n > 0 ==>
      && Tokens(w, limits, initial, n, n)
         == Tokens(w, limits, initial, n, n - 1) + Revision(w, limits, initial, n - 1).value.tokens
      && Cost(w, limits, initial, n, n)
         == Cost(w, limits, initial, n, n - 1) + Revision(w, limits, initial, n - 1).value.cost
    ensures Scored(w, limits, initial, n) ==>
      && Tokens(w, limits, initial, n + 1, n)
         == Tokens(w, limits, initial, n, n) + Verification(w, limits, initial, n).value.tokens
      && Cost(w, limits, initial, n + 1, n)
         == Cost(w, limits, initial, n, n) + Verification(w, limits, initial, n).value.cost
  {
  }

  // The output is the earliest best-scored candidate: no later or earlier one beats it, and the
  // initial text is returned untouched when nothing was scored.
  lemma {:induction false} ReturnsBest(w: World, limits: Limits, initial: string, n: nat)
    requires EndsAt(w, limits, initial, n)
    ensures var r := Outcome(w, limits, initial, n);
            if r.verifierCalls == 0 then r.output == initial && r.bestScore == None && !r.verified
            else exists b: nat :: b < r.verifierCalls && Some(r.output) == Candidate(w, limits, initial, b)
                   && r.bestScore == Some(Score(w, limits, initial, b))
                   && (forall j: nat :: j < r.verifierCalls ==> Score(w, limits, initial, j) <= r.bestScore.value)
                   && (forall j: nat :: j < b ==> Score(w, limits, initial, j) < r.bestScore.value)
  {
    var v := Calls(w, limits, initial, n);
    if v > 0 {
      var b := BestIndex(w, limits, initial, v);
      assert Scored(w, limits, initial, b);
    }
  }

  // Every score but the last is at least the one before plus the margin; the last is too unless
  // the run stopped for want of improvement.
  lemma {:induction false} ScoresRise(w: World, limits: Limits, initial: string, n: nat, i: nat)
    requires EndsAt(w, limits, initial, n) && 0 < i < Calls(w, limits, initial, n)
    ensures Scored(w, limits, initial, i) && Scored(w, limits, initial, i - 1)
    ensures Score(w, limits, initial, i) - Score(w, limits, initial, i - 1) >= limits.minImprovement
      <==> !(i == n && Halt(w, limits, initial, n) == Some(NoImprovement))
  {
    if i < n {
      PassCosts(w, limits, initial, i);
    }
  }

  lemma {:induction false} EarlierScores(w: World, limits: Limits, initial: string, n: nat, i: nat)
    requires EndsAt(w, limits, initial, n) && i <= n < Calls(w, limits, initial, n) && limits.minImprovement >= 0.0
    requires Halt(w, limits, initial, n) != Some(NoImprovement)
    ensures Scored(w, limits, initial, i) && Scored(w, limits, initial, n)
    ensures Score(w, limits, initial, i) <= Score(w, limits, initial, n)
    ensures i < n ==> Score(w, limits, initial, i) <= Score(w, limits, initial, n - 1)
    decreases n - i
  {
    if i < n {
      EarlierScores(w, limits, initial, n, i + 1);
      ScoresRise(w, limits, initial, n, i + 1);
    }
  }

  // An accepted run reports the accepted score, and returns the accepted candidate itself
  // exactly when it strictly beat its predecessor, as any positive margin makes sure of.
  lemma {:induction false} AcceptedIsBest(w: World, limits: Limits, initial: string, n: nat)
    requires EndsAt(w, limits, initial, n) && Outcome(w, limits, initial, n).accepted && limits.minImprovement >= 0.0
    ensures var r := Outcome(w, limits, initial, n);
            && r.verifierCalls == n + 1 && Scored(w, limits, initial, n)
            && Verification(w, limits, initial, n).value.verdict.accept
            && r.bestScore == Some(Score(w, limits, initial, n)) && r.bestScore.value >= limits.acceptThreshold
    ensures BestIndex(w, limits, initial, n + 1) == n
      <==> n == 0 || Score(w, limits, initial, n) > Score(w, limits, initial, n - 1)
    ensures n == 0 || limits.minImprovement > 0.0 ==>
      Some(Outcome(w, limits, initial, n).output) == Candidate(w, limits, initial, n)
  {
    var b := BestIndex(w, limits, initial, n + 1);
    EarlierScores(w, limits, initial, n, b);
    if n > 0 {
      ScoresRise(w, limits, initial, n, n);
      EarlierScores(w, limits, initial, n, n - 1);
    }
  }

  // With a margin of zero an accepted run can return an earlier candidate than the accepted one.
  lemma TieKeepsEarlier()
    ensures exists w, limits, n ::
      EndsAt(w, limits, "a", n) && limits.minImprovement == 0.0 && Outcome(w, limits, "a", n).accepted
      && Candidate(w, limits, "a", n) == Some("b") && Outcome(w, limits, "a", n).output == "a"
  {
    var w := World(
      (i, text) => Some(VerifyOutcome(Verdict(0.9, i > 0, ""), 0, 0.0)),
      (i, text, feedback) => Some(ReviseOutcome("b", 0, 0.0)),
      i => 0.0);
    var limits := Limits(2, 3, 2, 1.0, 10, 1.0, 0.8, 0.0, 10);
    assert Candidate(w, limits, "a", 0) == Some("a");
    assert Candidate(w, limits, "a", 1) == Some("b");
    assert Halt(w, limits, "a", 0) == None;
    assert Halt(w, limits, "a", 1) == Some(Accepted);
    assert EndsAt(w, limits, "a", 1);
    assert BestIndex(w, limits, "a", 2) == 0;
  }

  // ---- Why and when a run stops ----

  ghost predicate InTime(w: World, limits: Limits, n: nat) {
    w.elapsed(n) <= limits.timeout && n < limits.maxVerifierCalls
  }

  // The candidate of pass n was verified in time.
  ghost predicate Verified(w: World, limits: Limits, initial: string, n: nat) {
    InTime(w, limits, n) && Scored(w, limits, initial, n)
  }

  // It is the first, or scores at least the margin more than the one before.
  ghost predicate Rose(w: World, limits: Limits, initial: string, n: nat)
    requires Reaches(w, limits, initial, n) && Scored(w, limits, initial, n)
  {
    n == 0 || Score(w, limits, initial, n) >= Score(w, limits, initial, n - 1) + limits.minImprovement
  }

  ghost function VerifyTokens(w: World, limits: Limits, initial: string, v: nat): int
    requires forall i: nat :: i < v ==> Scored(w, limits, initial, i)
  {
    if v == 0 then 0
    else
      assert Scored(w, limits, initial, v - 1);
      VerifyTokens(w, limits, initial, v - 1) + Verification(w, limits, initial, v - 1).value.tokens
  }

  ghost function ReviseTokens(w: World, limits: Limits, initial: string, r: nat): int
    requires forall i: nat :: i < r ==> Revision(w, limits, initial, i).Some?
  {
    if r == 0 then 0
    else ReviseTokens(w, limits, initial, r - 1) + Revision(w, limits, initial, r - 1).value.tokens
  }

  ghost function VerifyCost(w: World, limits: Limits, initial: string, v: nat): real
    requires forall i: nat :: i < v ==> Scored(w, limits, initial, i)
  {
    if v == 0 then 0.0
    else
      assert Scored(w, limits, initial, v - 1);
      VerifyCost(w, limits, initial, v - 1) + Verification(w, limits, initial, v - 1).value.cost
  }

  ghost function ReviseCost(w: World, limits: Limits, initial: string, r: nat): real
    requires forall i: nat :: i < r ==> Revision(w, limits, initial, i).Some?
  {
    if r == 0 then 0.0
    else ReviseCost(w, limits, initial, r - 1) + Revision(w, limits, initial, r - 1).value.cost
  }

  // The accounts are the sums over all verifications and revisions made.
  lemma {:induction false} AccountsAdd(w: World, limits: Limits, initial: string, v: nat, r: nat)
    requires forall i: nat :: i < v ==> Scored(w, limits, initial, i)
    requires forall i: nat :: i < r ==> Revision(w, limits, initial, i).Some?
    ensures Tokens(w, limits, initial, v, r)
      == VerifyTokens(w, limits, initial, v) + ReviseTokens(w, limits, initial, r)
    ensures Cost(w, limits, initial, v, r) == VerifyCost(w, limits, initial, v) + ReviseCost(w, limits, initial, r)
  {
    hide Scored, Revision, Verification;
    if v > r {
      AccountsAdd(w, limits, initial, v - 1, r);
    } else if r > 0 {
      AccountsAdd(w, limits, initial, v, r - 1);
    }
  }

  // With the verification of pass n, spending is within both caps.
  ghost predicate InBudget(w: World, limits: Limits, initial: string, n: nat)
    requires Reaches(w, limits, initial, n) && Scored(w, limits, initial, n)
  {
    && VerifyTokens(w, limits, initial, n + 1) + ReviseTokens(w, limits, initial, n) <= limits.maxAddedTokens
    && VerifyCost(w, limits, initial, n + 1) + ReviseCost(w, limits, initial, n) <= limits.maxAddedCost
  }

  ghost predicate Accepts(w: World, limits: Limits, initial: string, n: nat)
    requires Scored(w, limits, initial, n)
  {
    Verification(w, limits, initial, n).value.verdict.accept && Score(w, limits, initial, n) >= limits.acceptThreshold
  }

  // Pass n hands a revised candidate to the next.
  ghost predicate GoesOn(w: World, limits: Limits, initial: string, n: nat)
    requires Reaches(w, limits, initial, n)
  {
    && Verified(w, limits, initial, n) && Rose(w, limits, initial, n) && InBudget(w, limits, initial, n)
    && !Accepts(w, limits, initial, n) && n < limits.maxIterations && n < limits.maxRevisionCalls
    && Revision(w, limits, initial, n).Some?
  }

  lemma {:induction false} GoesOnIff(w: World, limits: Limits, initial: string, n: nat)
    requires Reaches(w, limits, initial, n)
    ensures Halt(w, limits, initial, n) == None <==> GoesOn(w, limits, initial, n)
  {
    hide Tokens, Cost, VerifyTokens, VerifyCost, ReviseTokens, ReviseCost, Revision, Verification;
    if Scored(w, limits, initial, n) { AccountsAdd(w, limits, initial, n + 1, n); }
  }

  // The run ends at the first pass that does not go on.
  lemma {:induction false} EndsIff(w: World, limits: Limits, initial: string, n: nat)
    ensures EndsAt(w, limits, initial, n) <==>
      && Reaches(w, limits, initial, n) && (forall i: nat :: i < n ==> GoesOn(w, limits, initial, i))
      && !GoesOn(w, limits, initial, n)
  {
    hide Halt, GoesOn;
    if Reaches(w, limits, initial, n) {
      forall i: nat | i <= n
        ensures Reaches(w, limits, initial, i)
        ensures Halt(w, limits, initial, i) == None <==> GoesOn(w, limits, initial, i)
      {
        GoesOnIff(w, limits, initial, i);
      }
    }
  }

  // What each stop reason says about the last pass, in the order the checks are made. In
  // particular a run is accepted exactly when its last candidate was verified in time, rose,
  // left spending within the caps, and was accepted at or above the threshold.
  lemma {:induction false} StopReasons(w: World, limits: Limits, initial: string, n: nat)
    requires EndsAt(w, limits, initial, n)
    ensures var (r, verified) := (Outcome(w, limits, initial, n), Verified(w, limits, initial, n));
            && (r.stopReason == VerifierFailed <==> InTime(w, limits, n) && !verified)
            && (r.stopReason == NoImprovement <==> verified && !Rose(w, limits, initial, n))
            && (r.stopReason == Accepted <==> r.accepted)
            && (r.accepted <==> verified && Rose(w, limits, initial, n) && InBudget(w, limits, initial, n)
                                && Accepts(w, limits, initial, n))
            && (r.stopReason == MaxIterations <==>
                  && verified && Rose(w, limits, initial, n) && InBudget(w, limits, initial, n)
                  && !Accepts(w, limits, initial, n) && n >= limits.maxIterations)
            && (r.stopReason == ResourceLimit <==>
                  || !InTime(w, limits, n)
                  || (verified && Rose(w, limits, initial, n) && !InBudget(w, limits, initial, n))
                  || (verified && Rose(w, limits, initial, n) && InBudget(w, limits, initial, n)
                      && !Accepts(w, limits, initial, n) && limits.maxRevisionCalls <= n < limits.maxIterations))
            && (r.stopReason == RevisionFailed <==>
                  && verified && Rose(w, limits, initial, n) && InBudget(w, limits, initial, n)
                  && !Accepts(w, limits, initial, n) && n < limits.maxIterations && n < limits.maxRevisionCalls
                  && Revision(w, limits, initial, n) == None)
  {
    hide Tokens, Cost, VerifyTokens, VerifyCost, ReviseTokens, ReviseCost, Revision, Verification, BestText, BestScore;
    if Scored(w, limits, initial, n) { AccountsAdd(w, limits, initial, n + 1, n); }
  }

  // What a result counts: n revisions, one verification more if the last pass made one, one
  // iteration more if its revision failed, and the tokens and cost of exactly those.
  lemma {:induction false} ResultCounts(w: World, limits: Limits, initial: string, n: nat)
    requires EndsAt(w, limits, initial, n)
    ensures var r := Outcome(w, limits, initial, n);
            && r.revisionCalls == n
            && r.verifierCalls == (if Verified(w, limits, initial, n) then n + 1 else n)
            && r.iterations == (if r.stopReason == RevisionFailed then n + 1 else n)
            && (r.verified <==> r.verifierCalls > 0)
            && (forall i: nat :: i < r.verifierCalls ==> Scored(w, limits, initial, i))
            && r.addedTokens == VerifyTokens(w, limits, initial, r.verifierCalls) + ReviseTokens(w, limits, initial, n)
            && r.addedCost == VerifyCost(w, limits, initial, r.verifierCalls) + ReviseCost(w, limits, initial, n)
  {
    hide Tokens, Cost, VerifyTokens, VerifyCost, ReviseTokens, ReviseCost, Revision, Verification, BestText, BestScore;
    AccountsAdd(w, limits, initial, Calls(w, limits, initial, n), n);
  }

  // The initial text is the first candidate; each later one is what the reviser made of the one
  // before and the first feedback_chars characters of its feedback.
  lemma {:induction false} CandidateChain(w: World, limits: Limits, initial: string, i: nat)
    ensures Candidate(w, limits, initial, 0) == Some(initial)
    ensures Candidate(w, limits, initial, i + 1).Some? <==> Revision(w, limits, initial, i).Some?
    ensures Revision(w, limits, initial, i).Some? ==>
      && Candidate(w, limits, initial, i).Some?
      && w.verify(i, Candidate(w, limits, initial, i).value) == Verification(w, limits, initial, i) != None
      && var feedback := Verification(w, limits, initial, i).value.verdict.feedback;
      && var kept := if |feedback| <= limits.feedbackChars then feedback else feedback[..limits.feedbackChars];
      && w.revise(i, Candidate(w, limits, initial, i).value, kept) == Revision(w, limits, initial, i)
      && Candidate(w, limits, initial, i + 1) == Some(Revision(w, limits, initial, i).value.text)
  {
  }
}
