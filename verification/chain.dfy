/** Dynamic Memory Chain Evolution with Adaptive Path Truncation (`src/memory/chain.rs`). */
module Chain {
  import opened Wrappers
  import opened Vectors
  import opened Ranking
  import opened Store

  datatype DmceEngine = DmceEngine(beta: real, topK: nat, maxChainLen: nat)

  datatype ChainResult = ChainResult(chain: seq<MemoryNode>, stepsExecuted: nat, aptTriggered: bool,
                                     stepScores: seq<real>)

  /** The multiplicative gate of a candidate: relevance to the query times consistency with the chain. */
  function Gate(sqrt: SqrtFn, m: MemoryNode, query: Vec, centroid: Vec): real
    requires |m.embedding| == |query| == |centroid|
  {
    CosineSimilarity(sqrt, m.embedding, query) * CosineSimilarity(sqrt, m.embedding, centroid)
  }

  /** The first candidate of maximal gate. */
  function BestIndex(sqrt: SqrtFn, pool: seq<MemoryNode>, query: Vec, centroid: Vec): (b: nat)
    requires pool != [] && |query| == |centroid| && AllOfDim(pool, |query|)
    ensures b < |pool|
  {
    var n := |pool| - 1;
    if n == 0 then 0
    else
      var b := BestIndex(sqrt, pool[..n], query, centroid);
      if Gate(sqrt, pool[n], query, centroid) > Gate(sqrt, pool[b], query, centroid) then n else b
  }

  lemma {:induction false} BestIsGreatest(sqrt: SqrtFn, pool: seq<MemoryNode>, query: Vec, centroid: Vec)
    requires pool != [] && |query| == |centroid| && AllOfDim(pool, |query|)
    ensures var b := BestIndex(sqrt, pool, query, centroid);
            var best := Gate(sqrt, pool[b], query, centroid);
            && (forall i :: 0 <= i < |pool| ==> Gate(sqrt, pool[i], query, centroid) <= best)
            && (forall i :: 0 <= i < b ==> Gate(sqrt, pool[i], query, centroid) < best)
  {
    hide Gate;
    var n := |pool| - 1;
    if n > 0 {
      BestIsGreatest(sqrt, pool[..n], query, centroid);
      assert forall i :: 0 <= i < n ==> pool[..n][i] == pool[i];
    }
  }

  lemma BestOfOneMore(sqrt: SqrtFn, pool: seq<MemoryNode>, query: Vec, centroid: Vec, i: nat)
    requires i < |pool| && |query| == |centroid| && AllOfDim(pool, |query|)
    ensures AllOfDim(pool[..i + 1], |query|)
    ensures i == 0 ==> BestIndex(sqrt, pool[..1], query, centroid) == 0
    ensures i > 0 ==>
              var b := BestIndex(sqrt, pool[..i], query, centroid);
              BestIndex(sqrt, pool[..i + 1], query, centroid)
              == if Gate(sqrt, pool[i], query, centroid) > Gate(sqrt, pool[b], query, centroid) then i else b
  {
    hide Gate;
    assert pool[..i + 1][..i] == pool[..i];
  }

  /** `select_best_candidate`, for the non-empty pools it is called on. */
  method SelectBestCandidate(sqrt: SqrtFn, pool: seq<MemoryNode>, query: Vec, centroid: Vec)
    returns (bestIdx: nat, bestScore: real)
    requires pool != [] && |query| == |centroid| && AllOfDim(pool, |query|)
    ensures bestIdx == BestIndex(sqrt, pool, query, centroid)
    ensures bestScore == Gate(sqrt, pool[bestIdx], query, centroid)
  {
    hide CosineSimilarity, BestIndex;
    bestIdx := 0;
    var best: Option<real> := None;
    for i := 0 to |pool|
      invariant i == 0 ==> bestIdx == 0 && best.None?
      invariant i > 0 ==> AllOfDim(pool[..i], |query|)
                          && bestIdx == BestIndex(sqrt, pool[..i], query, centroid)
                          && best == Some(Gate(sqrt, pool[bestIdx], query, centroid))
    {
      BestOfOneMore(sqrt, pool, query, centroid, i);
      var cosQuery := CosineSimilarity(sqrt, pool[i].embedding, query);
      var cosChain := CosineSimilarity(sqrt, pool[i].embedding, centroid);
      var gate := cosQuery * cosChain;
      assert gate == Gate(sqrt, pool[i], query, centroid);
      if best.None? || gate > best.value {
        best := Some(gate);
        bestIdx := i;
      }
    }
    assert pool[..|pool|] == pool;
    bestScore := best.value;
  }

  /** `Vec::swap_remove`: the last element takes the place of the removed one. */
  function SwapRemove<T>(s: seq<T>, i: nat): seq<T>
    requires i < |s|
  {
    s[i := s[|s| - 1]][..|s| - 1]
  }

  lemma SwapRemoveRemovesOne<T>(s: seq<T>, i: nat)
    requires i < |s|
    ensures multiset(SwapRemove(s, i)) == multiset(s) - multiset{s[i]}
    ensures forall j :: 0 <= j < |s| - 1 ==> SwapRemove(s, i)[j] == if j == i then s[|s| - 1] else s[j]
  {
    var n := |s| - 1;
    var r := SwapRemove(s, i);
    Push(s, n);
    if i < n {
      assert s[..n] == s[..i] + [s[i]] + s[i + 1..n];
      assert r == s[..i] + [s[n]] + s[i + 1..n];
    } else {
      assert r == s[..n];
    }
  }

  // ------------------------------------------------------------------
  // Specification of the two evolutions
  // ------------------------------------------------------------------

  /** The local variables of the loop. */
  datatype Growth = Growth(chain: seq<MemoryNode>, pool: seq<MemoryNode>, sum: Vec, prevScore: Option<real>)

  ghost predicate Sized(g: Growth, dim: nat) {
    AllOfDim(g.chain, dim) && AllOfDim(g.pool, dim) && |g.sum| == dim
  }

  function Centroid(g: Growth, query: Vec): Vec {
    if g.chain == [] then query else Divide(g.sum, |g.chain| as real)
  }

  function Winner(sqrt: SqrtFn, g: Growth, query: Vec): (i: nat)
    requires Sized(g, |query|) && g.pool != []
    ensures i < |g.pool|
  {
    BestIndex(sqrt, g.pool, query, Centroid(g, query))
  }

  function WinningScore(sqrt: SqrtFn, g: Growth, query: Vec): real
    requires Sized(g, |query|) && g.pool != []
  {
    Gate(sqrt, g.pool[Winner(sqrt, g, query)], query, Centroid(g, query))
  }

  /** The truncation rule. */
  predicate Truncates(e: DmceEngine, score: real, prevScore: Option<real>) {
    prevScore.Some? && score < e.beta * prevScore.value
  }

  function Accept(sqrt: SqrtFn, g: Growth, query: Vec): (r: Growth)
    requires Sized(g, |query|) && g.pool != []
    ensures Sized(r, |query|)
  {
    var i := Winner(sqrt, g, query);
    Growth(g.chain + [g.pool[i]], SwapRemove(g.pool, i), Add(g.sum, g.pool[i].embedding),
           Some(WinningScore(sqrt, g, query)))
  }

  function Grow(e: DmceEngine, sqrt: SqrtFn, query: Vec, g: Growth, steps: nat): Growth
    requires Sized(g, |query|)
    decreases steps
  {
    if steps == 0 || g.pool == [] then g
    else if Truncates(e, WinningScore(sqrt, g, query), g.prevScore) then g
    else Grow(e, sqrt, query, Accept(sqrt, g, query), steps - 1)
  }

  function Diagnose(e: DmceEngine, sqrt: SqrtFn, query: Vec, g: Growth, d: ChainResult, step: nat): ChainResult
    requires Sized(g, |query|) && step <= e.maxChainLen
    decreases e.maxChainLen - step
  {
    if step == e.maxChainLen || g.pool == [] then d.(chain := g.chain)
    else
      var score := WinningScore(sqrt, g, query);
      var d' := d.(stepsExecuted := step + 1, stepScores := d.stepScores + [score]);
      if Truncates(e, score, g.prevScore) then d'.(chain := g.chain, aptTriggered := true)
      else Diagnose(e, sqrt, query, Accept(sqrt, g, query), d', step + 1)
  }

  /** The candidate pool, empty when retrieval fails. */
  function Candidates(e: DmceEngine, sqrt: SqrtFn, dim: nat, nodes: seq<MemoryNode>, query: Vec): (p: seq<MemoryNode>)
    requires AllOfDim(nodes, dim)
    ensures AllOfDim(p, |query|)
  {
    if |query| != dim then []
    else
      CandidatesFit(sqrt, nodes, query, e.topK);
      NodesOf(TopKOf(sqrt, nodes, query, e.topK, []))
  }

  lemma CandidatesFit(sqrt: SqrtFn, nodes: seq<MemoryNode>, query: Vec, k: nat)
    ensures AllOfDim(NodesOf(TopKOf(sqrt, nodes, query, k, [])), |query|)
  {
    hide FilterMap, SortDescending, CosineSimilarity;
    var eligible := FilterMap(Scorer(sqrt, query, []), nodes);
    var best := TopKOf(sqrt, nodes, query, k, []);
    SortSorts(eligible);
    forall i | 0 <= i < |best|
      ensures |best[i].node.embedding| == |query|
    {
      assert best[i] == SortDescending(eligible)[i];
      assert best[i] in multiset(eligible);
      var x :| 0 <= x < |eligible| && eligible[x] == best[i];
      var j := FilterMapSource(Scorer(sqrt, query, []), nodes, x);
    }
  }

  function Seedling(pool: seq<MemoryNode>, dim: nat): Growth {
    Growth([], pool, Zeros(dim), None)
  }

  const NO_CHAIN := ChainResult([], 0, false, [])

  function EvolveOf(e: DmceEngine, sqrt: SqrtFn, dim: nat, nodes: seq<MemoryNode>, query: Vec): seq<MemoryNode>
    requires AllOfDim(nodes, dim)
  {
    Grow(e, sqrt, query, Seedling(Candidates(e, sqrt, dim, nodes, query), |query|), e.maxChainLen).chain
  }

  function DiagnosticsOf(e: DmceEngine, sqrt: SqrtFn, dim: nat, nodes: seq<MemoryNode>, query: Vec): ChainResult
    requires AllOfDim(nodes, dim)
  {
    Diagnose(e, sqrt, query, Seedling(Candidates(e, sqrt, dim, nodes, query), |query|), NO_CHAIN, 0)
  }

  // ------------------------------------------------------------------
  // The two methods
  // ------------------------------------------------------------------

  /** One round of the loop shared by both methods: centroid and winner. */
  method Round(sqrt: SqrtFn, g: Growth, query: Vec) returns (idx: nat, score: real)
    requires Sized(g, |query|) && g.pool != []
    ensures idx == Winner(sqrt, g, query) && score == WinningScore(sqrt, g, query)
  {
    var centroid := if g.chain == [] then query else Divide(g.sum, |g.chain| as real);
    idx, score := SelectBestCandidate(sqrt, g.pool, query, centroid);
  }

  method Evolve(e: DmceEngine, sqrt: SqrtFn, store: MemoryStore, query: Vec) returns (chain: seq<MemoryNode>)
    requires store.Valid()
    ensures chain == EvolveOf(e, sqrt, store.dim, store.nodes, query)
  {
    hide Grow, Candidates, Winner, WinningScore;
    var pool := RetrievePool(e, sqrt, store, query);
    chain := [];
    var sum := Zeros(|query|);
    var prevScore: Option<real> := None;
    ghost var goal := Grow(e, sqrt, query, Growth(chain, pool, sum, prevScore), e.maxChainLen);
    for step := 0 to e.maxChainLen
      invariant Sized(Growth(chain, pool, sum, prevScore), |query|)
      invariant Grow(e, sqrt, query, Growth(chain, pool, sum, prevScore), e.maxChainLen - step) == goal
    {
      ghost var g := Growth(chain, pool, sum, prevScore);
      GrowStep(e, sqrt, query, g, e.maxChainLen - step);
      if pool == [] {
        break;
      }
      var idx, score := Round(sqrt, Growth(chain, pool, sum, prevScore), query);
      if prevScore.Some? {
        if score < e.beta * prevScore.value {
          break;
        }
      }
      var winner := pool[idx];
      pool := SwapRemove(pool, idx);
      sum := Add(sum, winner.embedding);
      chain := chain + [winner];
      prevScore := Some(score);
      assert Growth(chain, pool, sum, prevScore) == Accept(sqrt, g, query);
    }
    GrowStops(e, sqrt, query, Growth(chain, pool, sum, prevScore));
  }

  lemma GrowStep(e: DmceEngine, sqrt: SqrtFn, query: Vec, g: Growth, steps: nat)
    requires Sized(g, |query|)
    ensures steps > 0 && g.pool == [] ==> Grow(e, sqrt, query, g, steps) == g
    ensures steps > 0 && g.pool != [] ==>
              Grow(e, sqrt, query, g, steps) ==
              if Truncates(e, WinningScore(sqrt, g, query), g.prevScore) then g
              else Grow(e, sqrt, query, Accept(sqrt, g, query), steps - 1)
  {
    hide WinningScore, Accept;
  }

  lemma GrowStops(e: DmceEngine, sqrt: SqrtFn, query: Vec, g: Growth)
    requires Sized(g, |query|)
    ensures Grow(e, sqrt, query, g, 0) == g
  {
  }

  method RetrievePool(e: DmceEngine, sqrt: SqrtFn, store: MemoryStore, query: Vec) returns (pool: seq<MemoryNode>)
    requires store.Valid()
    ensures pool == Candidates(e, sqrt, store.dim, store.nodes, query)
  {
    var candidates := store.TopK(sqrt, query, e.topK, []);
    pool := if candidates.Ok? then NodesOf(candidates.value) else [];
  }

  method EvolveWithDiagnostics(e: DmceEngine, sqrt: SqrtFn, store: MemoryStore, query: Vec)
    returns (result: ChainResult)
    requires store.Valid()
    ensures result == DiagnosticsOf(e, sqrt, store.dim, store.nodes, query)
  {
    hide Diagnose, Candidates, Winner, WinningScore;
    var pool := RetrievePool(e, sqrt, store, query);
    var chain: seq<MemoryNode> := [];
    var sum := Zeros(|query|);
    var prevScore: Option<real> := None;
    var stepScores: seq<real> := [];
    var aptTriggered, stepsExecuted: nat := false, 0;
    ghost var goal := Diagnose(e, sqrt, query, Growth(chain, pool, sum, prevScore), NO_CHAIN, 0);
    for step := 0 to e.maxChainLen
      invariant Sized(Growth(chain, pool, sum, prevScore), |query|)
      invariant Diagnose(e, sqrt, query, Growth(chain, pool, sum, prevScore),
                         ChainResult([], stepsExecuted, false, stepScores), step) == goal
      invariant !aptTriggered
    {
      ghost var g := Growth(chain, pool, sum, prevScore);
      DiagnoseStep(e, sqrt, query, g, ChainResult([], stepsExecuted, false, stepScores), step);
      if pool == [] {
        return ChainResult(chain, stepsExecuted, aptTriggered, stepScores);
      }
      var idx, score := Round(sqrt, Growth(chain, pool, sum, prevScore), query);
      stepsExecuted := step + 1;
      stepScores := stepScores + [score];
      if prevScore.Some? {
        if score < e.beta * prevScore.value {
          aptTriggered := true;
          return ChainResult(chain, stepsExecuted, aptTriggered, stepScores);
        }
      }
      var winner := pool[idx];
      pool := SwapRemove(pool, idx);
      sum := Add(sum, winner.embedding);
      chain := chain + [winner];
      prevScore := Some(score);
      assert Growth(chain, pool, sum, prevScore) == Accept(sqrt, g, query);
    }
    ghost var d := ChainResult([], stepsExecuted, false, stepScores);
    DiagnoseStops(e, sqrt, query, Growth(chain, pool, sum, prevScore), d);
    return ChainResult(chain, stepsExecuted, aptTriggered, stepScores);
  }

  lemma DiagnoseStep(e: DmceEngine, sqrt: SqrtFn, query: Vec, g: Growth, d: ChainResult, step: nat)
    requires Sized(g, |query|) && step < e.maxChainLen
    ensures g.pool == [] ==> Diagnose(e, sqrt, query, g, d, step) == d.(chain := g.chain)
    ensures g.pool != [] ==>
              var score := WinningScore(sqrt, g, query);
              var d' := d.(stepsExecuted := step + 1, stepScores := d.stepScores + [score]);
              Diagnose(e, sqrt, query, g, d, step) ==
              if Truncates(e, score, g.prevScore) then d'.(chain := g.chain, aptTriggered := true)
              else Diagnose(e, sqrt, query, Accept(sqrt, g, query), d', step + 1)
  {
    hide WinningScore, Accept;
  }

  lemma DiagnoseStops(e: DmceEngine, sqrt: SqrtFn, query: Vec, g: Growth, d: ChainResult)
    requires Sized(g, |query|)
    ensures Diagnose(e, sqrt, query, g, d, e.maxChainLen) == d.(chain := g.chain)
  {
  }
}
