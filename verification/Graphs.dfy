/** Dependency graphs: a node becomes free round by round as its dependencies are done,
    and the round in which that happens is the length of the longest chain ending in it. */
module Graphs {
  import opened Ordering

  // Every node with the set of nodes it depends on.
  type Graph = map<Id, set<Id>>

  ghost predicate Closed(g: Graph) {
    forall n :: n in g ==> g[n] <= g.Keys
  }

  // The nodes whose whole history fits into k rounds.
  ghost function Done(g: Graph, k: nat): set<Id> {
    if k == 0 then {} else set n | n in g && g[n] <= Done(g, k - 1)
  }

  ghost function Layer(g: Graph, k: nat): set<Id> {
    Done(g, k + 1) - Done(g, k)
  }

  // A dependency chain: every node depends directly on the one before it.
  ghost predicate IsChain(g: Graph, p: seq<Id>) {
    && p != []
    && (forall i :: 0 <= i < |p| ==> p[i] in g)
    && (forall i, j :: 0 <= i && j == i + 1 < |p| ==> p[i] in g[p[j]])
  }

  ghost predicate ChainTo(g: Graph, p: seq<Id>, n: Id) {
    IsChain(g, p) && p[|p| - 1] == n
  }

  ghost predicate IsCycle(g: Graph, p: seq<Id>) {
    IsChain(g, p) && |p| > 1 && p[0] == p[|p| - 1]
  }

  ghost predicate Acyclic(g: Graph) {
    forall p :: !IsCycle(g, p)
  }

  ghost predicate ChainsWithin(g: Graph, bound: nat) {
    forall p :: IsChain(g, p) ==> |p| <= bound
  }

  // The number of nodes on the longest chain ending in n (0 if there is no longest one).
  ghost function Level(g: Graph, n: Id): nat {
    if exists k: nat :: n in Layer(g, k) then (var k: nat :| n in Layer(g, k); k + 1) else 0
  }

  lemma {:induction false} DoneGrows(g: Graph, j: nat, k: nat)
    requires j <= k
    ensures Done(g, j) <= Done(g, k) <= g.Keys
    decreases k
  {
    if j > 0 {
      DoneGrows(g, j - 1, k - 1);
    }
  }

  lemma {:induction false} ChainIsDone(g: Graph, p: seq<Id>, k: nat)
    requires IsChain(g, p) && p[|p| - 1] in Done(g, k)
    ensures |p| <= k && p[0] in Done(g, k + 1 - |p|)
    decreases |p|
  {
    if |p| > 1 {
      var front := p[..|p| - 1];
      assert p[|p| - 2] in g[p[|p| - 1]];
      ChainIsDone(g, front, k - 1);
    }
  }

  lemma {:induction false} LongChain(g: Graph, n: Id, k: nat) returns (p: seq<Id>)
    requires Closed(g) && n in g && n !in Done(g, k)
    ensures ChainTo(g, p, n) && |p| == k + 1
    decreases k
  {
    if k == 0 {
      p := [n];
    } else {
      var d :| d in g[n] && d !in Done(g, k - 1);
      var front := LongChain(g, d, k - 1);
      p := front + [n];
    }
  }

  // k rounds suffice for n exactly when no chain ending in n has more than k nodes.
  lemma {:induction false} DoneIffChainsShort(g: Graph, n: Id, k: nat)
    requires Closed(g) && n in g
    ensures n in Done(g, k) <==> forall p :: ChainTo(g, p, n) ==> |p| <= k
  {
    if n in Done(g, k) {
      forall p | ChainTo(g, p, n) ensures |p| <= k {
        ChainIsDone(g, p, k);
      }
    } else {
      var p := LongChain(g, n, k);
    }
  }

  lemma {:induction false} CycleNeverDone(g: Graph, p: seq<Id>, k: nat)
    requires IsCycle(g, p)
    ensures p[0] !in Done(g, k)
  {
    if p[0] in Done(g, k) {
      ChainIsDone(g, p, k);
      CycleNeverDone(g, p, k + 1 - |p|);
    }
  }

  // The rounds exhaust a graph exactly when it is acyclic, and |g| rounds are then enough.
  lemma {:induction false} AcyclicIffExhausted(g: Graph)
    requires Closed(g)
    ensures Acyclic(g) <==> Done(g, |g|) == g.Keys
    ensures Acyclic(g) <==> exists k: nat :: Done(g, k) == g.Keys
  {
    DoneGrows(g, 0, |g|);
    if Done(g, |g|) != g.Keys {
      var n :| n in g && n !in Done(g, |g|);
      var p := LongChain(g, n, |g|);
      assert |g.Keys| == |g|;
      var i, j := Repetition(p, g.Keys);
      assert IsCycle(g, p[i..j + 1]);
    }
    if k: nat :| Done(g, k) == g.Keys {
      forall p ensures !IsCycle(g, p) {
        if IsCycle(g, p) { CycleNeverDone(g, p, k); }
      }
    }
  }

  // Rounds and chains measure the same depth.
  lemma {:induction false} ExhaustedIffChainsWithin(g: Graph, k: nat)
    requires Closed(g)
    ensures Done(g, k) == g.Keys <==> ChainsWithin(g, k)
  {
    DoneGrows(g, 0, k);
    if Done(g, k) == g.Keys {
      forall p | IsChain(g, p) ensures |p| <= k { ChainIsDone(g, p, k); }
    } else {
      var n :| n in g && n !in Done(g, k);
      var p := LongChain(g, n, k);
    }
  }

  lemma {:induction false} LayersDisjoint(g: Graph, n: Id, j: nat, k: nat)
    requires n in Layer(g, j) && n in Layer(g, k)
    ensures j == k
  {
    if j < k { DoneGrows(g, j + 1, k); }
    if k < j { DoneGrows(g, k + 1, j); }
  }

  lemma {:induction false} LevelIs(g: Graph, n: Id, k: nat)
    requires n in Layer(g, k)
    ensures Level(g, n) == k + 1
  {
    assert exists j: nat :: n in Layer(g, j);
    var j: nat :| n in Layer(g, j) && Level(g, n) == j + 1;
    LayersDisjoint(g, n, j, k);
  }

  lemma {:induction false} LevelOfDone(g: Graph, n: Id, k: nat)
    requires n in Done(g, k)
    ensures 1 <= Level(g, n) <= k && n in Layer(g, Level(g, n) - 1)
  {
    if n in Done(g, k - 1) {
      LevelOfDone(g, n, k - 1);
    } else {
      LevelIs(g, n, k - 1);
    }
  }

  // The level is the length of the longest chain ending in n ...
  lemma LevelIsLongestChain(g: Graph, n: Id)
    requires Closed(g) && Acyclic(g) && n in g
    ensures exists p :: ChainTo(g, p, n) && |p| == Level(g, n)
    ensures forall p :: ChainTo(g, p, n) ==> |p| <= Level(g, n)
  {
    AcyclicIffExhausted(g);
    LevelOfDone(g, n, |g|);
    DoneIffChainsShort(g, n, Level(g, n));
    var p := LongChain(g, n, Level(g, n) - 1);
  }

  // ... and one more than the largest level among the dependencies.
  lemma LevelRecurrence(g: Graph, n: Id)
    requires Closed(g) && Acyclic(g) && n in g
    ensures forall d :: d in g[n] ==> Level(g, d) < Level(g, n)
    ensures if g[n] == {} then Level(g, n) == 1 else exists d :: d in g[n] && Level(g, d) + 1 == Level(g, n)
  {
    AcyclicIffExhausted(g);
    LevelOfDone(g, n, |g|);
    var k := Level(g, n) - 1;
    forall d | d in g[n] ensures 1 <= Level(g, d) <= k {
      LevelOfDone(g, d, k);
    }
    if g[n] == {} {
      assert n in Done(g, 1);
      DoneGrows(g, 1, k + 1);
      LevelOfDone(g, n, 1);
    } else if k == 0 {
    } else {
      var d :| d in g[n] && d !in Done(g, k - 1);
      LevelIs(g, d, k - 1);
    }
  }
}
