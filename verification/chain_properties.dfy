/** What chain evolution guarantees: it is the greedy run, monotone in beta and in the length cap. */
module ChainProperties {
  import opened Wrappers
  import opened Vectors
  import opened Ranking
  import opened Store
  import opened Chain

  // ------------------------------------------------------------------
  // The greedy run, written down without running sum, pool order or indices
  // ------------------------------------------------------------------

  function SumOf(nodes: seq<MemoryNode>, dim: nat): (s: Vec)
    requires AllOfDim(nodes, dim)
    ensures |s| == dim
  {
    if nodes == [] then Zeros(dim)
    else Add(SumOf(nodes[..|nodes| - 1], dim), nodes[|nodes| - 1].embedding)
  }

  /** The centroid of a chain: the mean of its embeddings, the query itself for the empty chain. */
  function CentroidOf(chain: seq<MemoryNode>, query: Vec): (c: Vec)
    requires AllOfDim(chain, |query|)
    ensures |c| == |query|
  {
    if chain == [] then query else Divide(SumOf(chain, |query|), |chain| as real)
  }

  /** `score` is the gate of `m`, and no node of `others` has a greater one. */
  ghost predicate IsBest(sqrt: SqrtFn, query: Vec, centroid: Vec, others: multiset<MemoryNode>,
                         m: MemoryNode, score: real)
    requires |centroid| == |query|
  {
    && |m.embedding| == |query|
    && score == Gate(sqrt, m, query, centroid)
    && forall x :: x in others && |x.embedding| == |query| ==> Gate(sqrt, x, query, centroid) <= score
  }

  /** Step `t` of the chain took a best candidate among those not taken before, and survived truncation. */
  ghost predicate StepIsGreedy(e: DmceEngine, sqrt: SqrtFn, query: Vec, all: multiset<MemoryNode>,
                               chain: seq<MemoryNode>, scores: seq<real>, t: nat)
    requires t < |chain| == |scores| && AllOfDim(chain, |query|)
  {
    && IsBest(sqrt, query, CentroidOf(chain[..t], query), all - multiset(chain[..t]), chain[t], scores[t])
    && (t > 0 ==> scores[t] >= e.beta * scores[t - 1])
  }

  ghost predicate GreedyRun(e: DmceEngine, sqrt: SqrtFn, query: Vec, all: multiset<MemoryNode>,
                            chain: seq<MemoryNode>, scores: seq<real>)
  {
    && AllOfDim(chain, |query|) && |chain| == |scores|
    && multiset(chain) <= all
    && forall t: nat :: t < |chain| ==> StepIsGreedy(e, sqrt, query, all, chain, scores, t)
  }

  /** The loop state after a greedy run: running sum, leftover pool and previous score are what they should be. */
  ghost predicate Grown(e: DmceEngine, sqrt: SqrtFn, query: Vec, all: multiset<MemoryNode>,
                        g: Growth, scores: seq<real>)
  {
    && Sized(g, |query|)
    && GreedyRun(e, sqrt, query, all, g.chain, scores)
    && g.sum == SumOf(g.chain, |query|)
    && multiset(g.chain) + multiset(g.pool) == all
    && g.prevScore == (if scores == [] then None else Some(scores[|scores| - 1]))
  }

  lemma SeedlingIsGrown(e: DmceEngine, sqrt: SqrtFn, query: Vec, pool: seq<MemoryNode>)
    requires AllOfDim(pool, |query|)
    ensures Grown(e, sqrt, query, multiset(pool), Seedling(pool, |query|), [])
  {
  }

  /** The winner of a round is best among all remaining candidates. */
  lemma WinnerIsBest(e: DmceEngine, sqrt: SqrtFn, query: Vec, all: multiset<MemoryNode>, g: Growth, scores: seq<real>)
    requires Grown(e, sqrt, query, all, g, scores) && g.pool != []
    ensures var w := g.pool[Winner(sqrt, g, query)];
            && all - multiset(g.chain) == multiset(g.pool)
            && IsBest(sqrt, query, CentroidOf(g.chain, query), multiset(g.pool), w, WinningScore(sqrt, g, query))
  {
    hide Gate;
    assert CentroidOf(g.chain, query) == Centroid(g, query);
    BestIsGreatest(sqrt, g.pool, query, Centroid(g, query));
    assert all - multiset(g.chain) == multiset(g.pool);
  }

  lemma StepPush(e: DmceEngine, sqrt: SqrtFn, query: Vec, all: multiset<MemoryNode>,
                 chain: seq<MemoryNode>, scores: seq<real>, m: MemoryNode, score: real, t: nat)
    requires t <= |chain| == |scores| && AllOfDim(chain + [m], |query|) && AllOfDim(chain, |query|)
    requires t < |chain| ==> StepIsGreedy(e, sqrt, query, all, chain, scores, t)
    requires IsBest(sqrt, query, CentroidOf(chain, query), all - multiset(chain), m, score)
    requires scores != [] ==> score >= e.beta * scores[|scores| - 1]
    ensures StepIsGreedy(e, sqrt, query, all, chain + [m], scores + [score], t)
  {
    hide IsBest, CentroidOf;
    if t < |chain| {
      assert (chain + [m])[..t] == chain[..t];
    } else {
      assert (chain + [m])[..t] == chain;
    }
  }

  lemma GreedyPush(e: DmceEngine, sqrt: SqrtFn, query: Vec, all: multiset<MemoryNode>,
                   chain: seq<MemoryNode>, scores: seq<real>, m: MemoryNode, score: real)
    requires GreedyRun(e, sqrt, query, all, chain, scores)
    requires m in all - multiset(chain) && |m.embedding| == |query|
    requires IsBest(sqrt, query, CentroidOf(chain, query), all - multiset(chain), m, score)
    requires scores != [] ==> score >= e.beta * scores[|scores| - 1]
    ensures GreedyRun(e, sqrt, query, all, chain + [m], scores + [score])
  {
    hide IsBest, StepIsGreedy, CentroidOf;
    var chain', scores' := chain + [m], scores + [score];
    assert multiset(chain') == multiset(chain) + multiset{m};
    forall t: nat | t < |chain'|
      ensures StepIsGreedy(e, sqrt, query, all, chain', scores', t)
    {
      assert t < |chain| ==> StepIsGreedy(e, sqrt, query, all, chain, scores, t);
      StepPush(e, sqrt, query, all, chain, scores, m, score, t);
    }
  }

  lemma AcceptIsGrown(e: DmceEngine, sqrt: SqrtFn, query: Vec, all: multiset<MemoryNode>, g: Growth, scores: seq<real>)
    requires Grown(e, sqrt, query, all, g, scores) && g.pool != []
    requires !Truncates(e, WinningScore(sqrt, g, query), g.prevScore)
    ensures Grown(e, sqrt, query, all, Accept(sqrt, g, query), scores + [WinningScore(sqrt, g, query)])
  {
    hide IsBest, StepIsGreedy, Winner, WinningScore;
    WinnerIsBest(e, sqrt, query, all, g, scores);
    var i := Winner(sqrt, g, query);
    var w := g.pool[i];
    GreedyPush(e, sqrt, query, all, g.chain, scores, w, WinningScore(sqrt, g, query));
    SwapRemoveRemovesOne(g.pool, i);
    assert (g.chain + [w])[..|g.chain|] == g.chain;
    assert multiset(g.chain + [w]) == multiset(g.chain) + multiset{w};
  }

  /** How an evolution ended: at the cap, with no candidate left, or by truncation of the best one left. */
  ghost predicate Ended(e: DmceEngine, sqrt: SqrtFn, query: Vec, all: multiset<MemoryNode>, r: ChainResult)
    requires AllOfDim(r.chain, |query|)
  {
    var n := |r.chain|;
    if r.aptTriggered then
      && 0 < n < e.maxChainLen && |r.stepScores| == n + 1
      && r.stepScores[n] < e.beta * r.stepScores[n - 1]
      && exists m :: && m in all - multiset(r.chain)
                     && IsBest(sqrt, query, CentroidOf(r.chain, query), all - multiset(r.chain), m, r.stepScores[n])
    else n == e.maxChainLen || (n < e.maxChainLen && multiset(r.chain) == all)
  }

  ghost predicate FaithfulResult(e: DmceEngine, sqrt: SqrtFn, query: Vec, all: multiset<MemoryNode>, r: ChainResult) {
    && r.stepsExecuted == |r.stepScores| == |r.chain| + (if r.aptTriggered then 1 else 0)
    && GreedyRun(e, sqrt, query, all, r.chain, r.stepScores[..|r.chain|])
    && Ended(e, sqrt, query, all, r)
  }

  lemma {:induction false} DiagnoseIsFaithful(e: DmceEngine, sqrt: SqrtFn, query: Vec, all: multiset<MemoryNode>,
                                              g: Growth, d: ChainResult, step: nat)
    requires Grown(e, sqrt, query, all, g, d.stepScores) && step <= e.maxChainLen
    requires step == |g.chain| == d.stepsExecuted && !d.aptTriggered
    ensures FaithfulResult(e, sqrt, query, all, Diagnose(e, sqrt, query, g, d, step))
    decreases e.maxChainLen - step
  {
    hide Diagnose, IsBest, WinningScore, Winner, Accept, StepIsGreedy;
    assert d.stepScores[..|g.chain|] == d.stepScores;
    if step == e.maxChainLen {
      DiagnoseStops(e, sqrt, query, g, d);
    } else {
      DiagnoseStep(e, sqrt, query, g, d, step);
      if g.pool == [] {
        assert multiset(g.chain) == all;
      } else {
        var score := WinningScore(sqrt, g, query);
        var d' := d.(stepsExecuted := step + 1, stepScores := d.stepScores + [score]);
        if Truncates(e, score, g.prevScore) {
          WinnerIsBest(e, sqrt, query, all, g, d.stepScores);
          assert g.pool[Winner(sqrt, g, query)] in all - multiset(g.chain);
          assert d'.stepScores[..|g.chain|] == d.stepScores;
        } else {
          AcceptIsGrown(e, sqrt, query, all, g, d.stepScores);
          AcceptExtends(sqrt, g, query);
          DiagnoseIsFaithful(e, sqrt, query, all, Accept(sqrt, g, query), d', step + 1);
        }
      }
    }
  }

  lemma AcceptExtends(sqrt: SqrtFn, g: Growth, query: Vec)
    requires Sized(g, |query|) && g.pool != []
    ensures g.chain < Accept(sqrt, g, query).chain
    ensures |Accept(sqrt, g, query).chain| == |g.chain| + 1
    ensures Accept(sqrt, g, query).prevScore == Some(WinningScore(sqrt, g, query))
  {
    hide Winner, WinningScore;
  }

  /**
    Evolution is the greedy run over the retrieved candidates: every member of the chain maximises the
    gate against the mean of the members before it among all candidates not yet taken, survives the
    truncation rule, and evolution stops exactly for one of the three documented reasons.
   */
  lemma EvolutionIsGreedy(e: DmceEngine, sqrt: SqrtFn, dim: nat, nodes: seq<MemoryNode>, query: Vec)
    requires AllOfDim(nodes, dim)
    ensures FaithfulResult(e, sqrt, query, multiset(Candidates(e, sqrt, dim, nodes, query)),
                           DiagnosticsOf(e, sqrt, dim, nodes, query))
  {
    var pool := Candidates(e, sqrt, dim, nodes, query);
    SeedlingIsGrown(e, sqrt, query, pool);
    DiagnoseIsFaithful(e, sqrt, query, multiset(pool), Seedling(pool, |query|), NO_CHAIN, 0);
  }

  lemma {:induction false} GrowIsDiagnosed(e: DmceEngine, sqrt: SqrtFn, query: Vec, g: Growth,
                                           d: ChainResult, step: nat)
    requires Sized(g, |query|) && step <= e.maxChainLen
    ensures Grow(e, sqrt, query, g, e.maxChainLen - step).chain == Diagnose(e, sqrt, query, g, d, step).chain
    decreases e.maxChainLen - step
  {
    hide Diagnose, Grow, WinningScore, Accept;
    if step == e.maxChainLen {
      GrowStops(e, sqrt, query, g);
      DiagnoseStops(e, sqrt, query, g, d);
    } else {
      GrowStep(e, sqrt, query, g, e.maxChainLen - step);
      DiagnoseStep(e, sqrt, query, g, d, step);
      if g.pool != [] && !Truncates(e, WinningScore(sqrt, g, query), g.prevScore) {
        var d' := d.(stepsExecuted := step + 1, stepScores := d.stepScores + [WinningScore(sqrt, g, query)]);
        GrowIsDiagnosed(e, sqrt, query, Accept(sqrt, g, query), d', step + 1);
      }
    }
  }

  /** The plain and the diagnostic evolution return the same chain. */
  lemma EvolutionsAgree(e: DmceEngine, sqrt: SqrtFn, dim: nat, nodes: seq<MemoryNode>, query: Vec)
    requires AllOfDim(nodes, dim)
    ensures EvolveOf(e, sqrt, dim, nodes, query) == DiagnosticsOf(e, sqrt, dim, nodes, query).chain
  {
    GrowIsDiagnosed(e, sqrt, query, Seedling(Candidates(e, sqrt, dim, nodes, query), |query|), NO_CHAIN, 0);
  }

  // ------------------------------------------------------------------
  // Where the candidates come from
  // ------------------------------------------------------------------

  /** `x` is at least as similar to the query as `y`. */
  predicate IsCloser(sqrt: SqrtFn, query: Vec, x: MemoryNode, y: MemoryNode)
    requires |x.embedding| == |y.embedding| == |query|
  {
    CosineSimilarity(sqrt, query, x.embedding) >= CosineSimilarity(sqrt, query, y.embedding)
  }

  /**
    The candidates are the stored nodes closest to the query, as many as asked for and in descending
    order; `rest` is what was left in the store, none of it closer. A query of the wrong dimension has none.
   */
  lemma CandidatesAreClosest(e: DmceEngine, sqrt: SqrtFn, dim: nat, nodes: seq<MemoryNode>, query: Vec)
    returns (rest: seq<MemoryNode>)
    requires AllOfDim(nodes, dim) && IsSqrt(sqrt)
    ensures |query| != dim ==> Candidates(e, sqrt, dim, nodes, query) == []
    ensures |query| == dim ==>
              var pool := Candidates(e, sqrt, dim, nodes, query);
              && multiset(pool) + multiset(rest) == multiset(nodes)
              && |pool| == (if |nodes| <= e.topK then |nodes| else e.topK)
              && AllOfDim(pool, |query|) && AllOfDim(rest, |query|)
              && (forall i, j :: 0 <= i < j < |pool| ==> IsCloser(sqrt, query, pool[i], pool[j]))
              && (forall i, j :: 0 <= i < |pool| && 0 <= j < |rest| ==> IsCloser(sqrt, query, pool[i], rest[j]))
  {
    hide CosineSimilarity, FilterMap, SortDescending, AtScore, NodesOf, EligibleExactly;
    rest := [];
    if |query| == dim {
      var others := TopKIsBest(sqrt, nodes, query, e.topK, []);
      var best := TopKOf(sqrt, nodes, query, e.topK, []);
      var eligible := FilterMap(Scorer(sqrt, query, []), nodes);
      rest := NodesOf(others);
      SplitNodes(best, others, nodes);
      ScoredByCosine(sqrt, nodes, query, best, others);
      FilterKeepsEligible(sqrt, nodes, query, []);
      SameNumber(eligible, nodes);
      forall i, j | 0 <= i < |best| && 0 <= j < |others|
        ensures best[i].score >= others[j].score
      {
        assert best[i] in best && others[j] in others;
      }
    }
  }

  lemma SameNumber(eligible: seq<ScoredNode>, nodes: seq<MemoryNode>)
    requires EligibleExactly(eligible, nodes, [])
    ensures |eligible| == |nodes|
  {
    assert multiset(NodesOf(eligible)) == multiset(nodes);
    SameSize(NodesOf(eligible), nodes);
  }

  lemma ScoredByCosine(sqrt: SqrtFn, nodes: seq<MemoryNode>, query: Vec, a: seq<ScoredNode>, b: seq<ScoredNode>)
    requires IsSqrt(sqrt) && AllOfDim(nodes, |query|)
    requires multiset(a) + multiset(b) == multiset(FilterMap(Scorer(sqrt, query, []), nodes))
    ensures forall x :: x in a || x in b ==>
                          |x.node.embedding| == |query| && x.score == CosineSimilarity(sqrt, query, x.node.embedding)
  {
    hide CosineSimilarity, FilterMap;
    var eligible := FilterMap(Scorer(sqrt, query, []), nodes);
    forall x | x in a || x in b
      ensures |x.node.embedding| == |query| && x.score == CosineSimilarity(sqrt, query, x.node.embedding)
    {
      assert x in multiset(a) + multiset(b);
      assert x in multiset(eligible);
      EligibleScores(sqrt, nodes, query, [], x);
    }
  }

  lemma SplitNodes(best: seq<ScoredNode>, rest: seq<ScoredNode>, nodes: seq<MemoryNode>)
    requires EligibleExactly(best + rest, nodes, [])
    ensures multiset(NodesOf(best)) + multiset(NodesOf(rest)) == multiset(nodes)
  {
    assert NodesOf(best + rest) == NodesOf(best) + NodesOf(rest);
  }

  // ------------------------------------------------------------------
  // What the gate measures
  // ------------------------------------------------------------------

  /**
    The gate looks at the query and at the chain: scaled by the norms it is the product of the two dot
    products, and it is 0 when one of them is, or when one of the two norm products is below epsilon.
   */
  lemma GateMeasures(sqrt: SqrtFn, m: MemoryNode, query: Vec, centroid: Vec)
    requires |m.embedding| == |query| == |centroid|
    ensures var a := Norm(sqrt, m.embedding) * Norm(sqrt, query);
            var b := Norm(sqrt, m.embedding) * Norm(sqrt, centroid);
            && (a >= EPSILON && b >= EPSILON ==>
                  Gate(sqrt, m, query, centroid) * (a * b) == Dot(m.embedding, query) * Dot(m.embedding, centroid))
            && (a < EPSILON || b < EPSILON ==> Gate(sqrt, m, query, centroid) == 0.0)
    ensures Dot(m.embedding, query) == 0.0 || Dot(m.embedding, centroid) == 0.0 ==>
              Gate(sqrt, m, query, centroid) == 0.0
  {
    hide CosineSimilarity, Norm, Dot;
    CosineIs(sqrt, m.embedding, query);
    CosineIs(sqrt, m.embedding, centroid);
    var a := Norm(sqrt, m.embedding) * Norm(sqrt, query);
    var b := Norm(sqrt, m.embedding) * Norm(sqrt, centroid);
    ProductOfScaled(CosineSimilarity(sqrt, m.embedding, query), a, CosineSimilarity(sqrt, m.embedding, centroid), b);
    ZeroFactor(CosineSimilarity(sqrt, m.embedding, query), a);
    ZeroFactor(CosineSimilarity(sqrt, m.embedding, centroid), b);
  }

  lemma ProductOfScaled(x: real, a: real, y: real, b: real)
    ensures (x * y) * (a * b) == (x * a) * (y * b)
  {
  }

  lemma ZeroFactor(x: real, a: real)
    ensures a >= EPSILON && x * a == 0.0 ==> x == 0.0
  {
  }

  /** The similarity to a chain as a whole: the sum of the dot products with its members. */
  function TotalDot(x: Vec, chain: seq<MemoryNode>): real
    requires AllOfDim(chain, |x|)
  {
    if chain == [] then 0.0
    else TotalDot(x, chain[..|chain| - 1]) + Dot(x, chain[|chain| - 1].embedding)
  }

  lemma {:induction false} DotSum(x: Vec, chain: seq<MemoryNode>)
    requires AllOfDim(chain, |x|)
    ensures Dot(x, SumOf(chain, |x|)) == TotalDot(x, chain)
  {
    hide Dot;
    if chain == [] {
      DotZero(x);
    } else {
      var n := |chain| - 1;
      DotSum(x, chain[..n]);
      DotAdd(x, SumOf(chain[..n], |x|), chain[n].embedding);
    }
  }

  /** `gate` is the product of `x` and `total`, divided by the norm of the centroid and the length of the chain. */
  predicate IsScaled(gate: real, norm: real, n: real, x: real, total: real) {
    gate * (norm * n) == x * total
  }

  /** `c` is the mean dot product `total / n`, divided by the norm of the centroid. */
  predicate IsMean(c: real, norm: real, total: real, n: real)
    requires n != 0.0
  {
    c * norm == total * (1.0 / n)
  }

  /** For unit vectors the gate compares, up to a factor that all candidates share, two sums of dot products. */
  lemma GateOfUnits(sqrt: SqrtFn, m: MemoryNode, query: Vec, chain: seq<MemoryNode>)
    requires IsSqrt(sqrt) && |m.embedding| == |query| && AllOfDim(chain, |query|)
    requires IsUnit(m.embedding) && IsUnit(query)
    ensures var gate := Gate(sqrt, m, query, CentroidOf(chain, query));
            var norm := Norm(sqrt, CentroidOf(chain, query));
            if chain == [] then gate == Times(Dot(m.embedding, query), Dot(m.embedding, query))
            else if norm < EPSILON then gate == 0.0
            else IsScaled(gate, norm, |chain| as real, Dot(m.embedding, query), TotalDot(m.embedding, chain))
  {
    hide *;
    CosineOfUnits(sqrt, m.embedding, query);
    CentroidOfNone(query);
    var centroid := CentroidOf(chain, query);
    GateFactors(sqrt, m, query, centroid);
    if chain != [] {
      CosineToCentroid(sqrt, m, query, chain);
      Rescale(Dot(m.embedding, query), CosineSimilarity(sqrt, m.embedding, centroid), Norm(sqrt, centroid),
              |chain| as real, TotalDot(m.embedding, chain));
    }
  }

  lemma CentroidOfNone(query: Vec)
    ensures AllOfDim([], |query|) && CentroidOf([], query) == query
  {
  }

  lemma GateFactors(sqrt: SqrtFn, m: MemoryNode, query: Vec, centroid: Vec)
    requires |m.embedding| == |query| == |centroid|
    ensures Gate(sqrt, m, query, centroid)
            == Times(CosineSimilarity(sqrt, m.embedding, query), CosineSimilarity(sqrt, m.embedding, centroid))
  {
    hide CosineSimilarity;
  }

  lemma CosineToCentroid(sqrt: SqrtFn, m: MemoryNode, query: Vec, chain: seq<MemoryNode>)
    requires IsSqrt(sqrt) && |m.embedding| == |query| && AllOfDim(chain, |query|) && chain != []
    requires IsUnit(m.embedding)
    ensures var c := CosineSimilarity(sqrt, m.embedding, CentroidOf(chain, query));
            var norm := Norm(sqrt, CentroidOf(chain, query));
            if norm < EPSILON then c == 0.0 else IsMean(c, norm, TotalDot(m.embedding, chain), |chain| as real)
  {
    hide Dot, CosineSimilarity, SumOf, TotalDot, Scale, Divide, Norm, IsUnit, IsSqrt;
    var n, sum := |chain| as real, SumOf(chain, |query|);
    DotSum(m.embedding, chain);
    DivideIsScale(sum, n);
    DotScale(m.embedding, sum, 1.0 / n);
    CosineIs(sqrt, m.embedding, CentroidOf(chain, query));
    CosineOfUnits(sqrt, m.embedding, m.embedding);
  }

  lemma Rescale(x: real, c: real, norm: real, n: real, total: real)
    requires n > 0.0
    ensures IsMean(c, norm, total, n) ==> IsScaled(Times(x, c), norm, n, x, total)
    ensures c == 0.0 ==> Times(x, c) == 0.0
  {
    if IsMean(c, norm, total, n) {
      assert (c * norm) * n == total;
      assert (x * c) * (norm * n) == x * ((c * norm) * n);
    }
  }

  /** Of two unit candidates for the place behind `chain`, `m` fits at least as well as `x`. */
  ghost predicate FitsBetter(sqrt: SqrtFn, query: Vec, chain: seq<MemoryNode>, x: MemoryNode, m: MemoryNode)
    requires AllOfDim(chain, |query|) && |x.embedding| == |m.embedding| == |query|
  {
    var dx, dm := Dot(x.embedding, query), Dot(m.embedding, query);
    if chain == [] then dx * dx <= dm * dm
    else
      Norm(sqrt, CentroidOf(chain, query)) >= EPSILON ==>
        dx * TotalDot(x.embedding, chain) <= dm * TotalDot(m.embedding, chain)
  }

  lemma GreaterGateFits(sqrt: SqrtFn, query: Vec, chain: seq<MemoryNode>, x: MemoryNode, m: MemoryNode)
    requires IsSqrt(sqrt) && AllOfDim(chain, |query|) && |x.embedding| == |m.embedding| == |query|
    requires IsUnit(query) && IsUnit(x.embedding) && IsUnit(m.embedding)
    requires Gate(sqrt, x, query, CentroidOf(chain, query)) <= Gate(sqrt, m, query, CentroidOf(chain, query))
    ensures FitsBetter(sqrt, query, chain, x, m)
  {
    hide Gate, Dot, CentroidOf, TotalDot, Norm, IsUnit, IsScaled, IsSqrt, Times;
    GateOfUnits(sqrt, x, query, chain);
    GateOfUnits(sqrt, m, query, chain);
    var dx, dm := Dot(x.embedding, query), Dot(m.embedding, query);
    TimesIs(dx, dx);
    TimesIs(dm, dm);
    if chain != [] {
      CompareScaled(Gate(sqrt, x, query, CentroidOf(chain, query)), Gate(sqrt, m, query, CentroidOf(chain, query)),
                    Norm(sqrt, CentroidOf(chain, query)), |chain| as real,
                    dx, TotalDot(x.embedding, chain), dm, TotalDot(m.embedding, chain));
    }
  }

  /**
    The greedy law in terms of the vectors alone: with unit vectors, each member of the chain has, among all
    candidates left, the greatest product of its dot product with the query and the sum of its dot
    products with the members before it; the first member has the greatest squared dot product with the query.
   */
  lemma GreedyOnUnits(e: DmceEngine, sqrt: SqrtFn, dim: nat, nodes: seq<MemoryNode>, query: Vec, t: nat, x: MemoryNode)
    requires AllOfDim(nodes, dim) && IsSqrt(sqrt) && IsUnit(query)
    requires forall i :: 0 <= i < |nodes| ==> IsUnit(nodes[i].embedding)
    requires var chain := EvolveOf(e, sqrt, dim, nodes, query);
             t < |chain| && x in multiset(Candidates(e, sqrt, dim, nodes, query)) - multiset(chain[..t])
    ensures var chain := EvolveOf(e, sqrt, dim, nodes, query);
            && AllOfDim(chain[..t], |query|) && |x.embedding| == |chain[t].embedding| == |query|
            && FitsBetter(sqrt, query, chain[..t], x, chain[t])
  {
    hide EvolveOf, DiagnosticsOf, Candidates, Gate, CentroidOf, FitsBetter, IsUnit, GreedyRun;
    EvolutionsAgree(e, sqrt, dim, nodes, query);
    EvolutionIsGreedy(e, sqrt, dim, nodes, query);
    var chain := EvolveOf(e, sqrt, dim, nodes, query);
    var all := multiset(Candidates(e, sqrt, dim, nodes, query));
    var scores := DiagnosticsOf(e, sqrt, dim, nodes, query).stepScores[..|chain|];
    RunIsWithin(e, sqrt, query, all, chain, scores);
    NextIsLeft(all, chain, t);
    CandidatesAreUnit(e, sqrt, dim, nodes, query, x);
    CandidatesAreUnit(e, sqrt, dim, nodes, query, chain[t]);
    NoneGatesHigher(e, sqrt, query, all, chain, scores, t, x);
    GreaterGateFits(sqrt, query, chain[..t], x, chain[t]);
  }

  lemma NoneGatesHigher(e: DmceEngine, sqrt: SqrtFn, query: Vec, all: multiset<MemoryNode>,
                        chain: seq<MemoryNode>, scores: seq<real>, t: nat, x: MemoryNode)
    requires GreedyRun(e, sqrt, query, all, chain, scores) && t < |chain|
    requires x in all - multiset(chain[..t]) && |x.embedding| == |query|
    ensures AllOfDim(chain[..t], |query|) && |chain[t].embedding| == |query|
    ensures var centroid := CentroidOf(chain[..t], query);
            Gate(sqrt, x, query, centroid) <= Gate(sqrt, chain[t], query, centroid)
  {
    hide Gate, CentroidOf;
    assert StepIsGreedy(e, sqrt, query, all, chain, scores, t);
  }

  lemma CandidatesAreUnit(e: DmceEngine, sqrt: SqrtFn, dim: nat, nodes: seq<MemoryNode>, query: Vec, x: MemoryNode)
    requires AllOfDim(nodes, dim) && IsSqrt(sqrt)
    requires forall i :: 0 <= i < |nodes| ==> IsUnit(nodes[i].embedding)
    requires x in multiset(Candidates(e, sqrt, dim, nodes, query))
    ensures IsUnit(x.embedding) && |x.embedding| == |query|
  {
    hide Candidates, Dot, CosineSimilarity, IsUnit;
    var rest := CandidatesAreClosest(e, sqrt, dim, nodes, query);
    assert x in multiset(nodes);
  }

  lemma CompareScaled(gx: real, gm: real, norm: real, n: real, dx: real, tx: real, dm: real, tm: real)
    requires gx <= gm && n >= 0.0
    requires norm >= EPSILON ==> IsScaled(gx, norm, n, dx, tx) && IsScaled(gm, norm, n, dm, tm)
    ensures norm >= EPSILON ==> dx * tx <= dm * tm
  {
    if norm >= EPSILON {
      ProductNonNegative(norm, n);
      ProductNonNegative(gm - gx, norm * n);
      assert (gm - gx) * (norm * n) == gm * (norm * n) - gx * (norm * n);
    }
  }

  // ------------------------------------------------------------------
  // Scores
  // ------------------------------------------------------------------

  lemma GateBounded(sqrt: SqrtFn, m: MemoryNode, query: Vec, centroid: Vec)
    requires IsSqrt(sqrt) && |m.embedding| == |query| == |centroid|
    ensures -1.0 <= Gate(sqrt, m, query, centroid) <= 1.0
  {
    hide CosineSimilarity;
    CosineBounded(sqrt, m.embedding, query);
    CosineBounded(sqrt, m.embedding, centroid);
    ProductBounded(CosineSimilarity(sqrt, m.embedding, query), CosineSimilarity(sqrt, m.embedding, centroid));
  }

  lemma ProductBounded(x: real, y: real)
    requires -1.0 <= x <= 1.0 && -1.0 <= y <= 1.0
    ensures -1.0 <= x * y <= 1.0
  {
    if y >= 0.0 {
      ShrunkBy(x, y);
    } else {
      ShrunkBy(x, -y);
      assert x * (-y) == -(x * y);
    }
  }

  lemma ShrunkBy(x: real, u: real)
    requires -1.0 <= x <= 1.0 && 0.0 <= u <= 1.0
    ensures -1.0 <= x * u <= 1.0
  {
    ProductNonNegative(1.0 - x, u);
    ProductNonNegative(1.0 + x, u);
    assert (1.0 - x) * u == u - x * u && (1.0 + x) * u == u + x * u;
  }

  function Power(b: real, t: nat): real {
    if t == 0 then 1.0 else b * Power(b, t - 1)
  }

  lemma GreedyIsSized(e: DmceEngine, sqrt: SqrtFn, query: Vec, all: multiset<MemoryNode>,
                      chain: seq<MemoryNode>, scores: seq<real>)
    requires GreedyRun(e, sqrt, query, all, chain, scores)
    ensures AllOfDim(chain, |query|)
  {
  }

  /** What a greedy step says about its score. */
  lemma StepScore(e: DmceEngine, sqrt: SqrtFn, query: Vec, all: multiset<MemoryNode>,
                  chain: seq<MemoryNode>, scores: seq<real>, t: nat)
    requires GreedyRun(e, sqrt, query, all, chain, scores) && t < |chain|
    ensures AllOfDim(chain[..t], |query|) && |chain[t].embedding| == |query| && |chain| == |scores|
    ensures scores[t] == Gate(sqrt, chain[t], query, CentroidOf(chain[..t], query))
    ensures t > 0 ==> scores[t] >= e.beta * scores[t - 1]
  {
    hide Gate, CentroidOf;
    assert StepIsGreedy(e, sqrt, query, all, chain, scores, t);
  }

  lemma {:induction false} AcceptedScores(e: DmceEngine, sqrt: SqrtFn, query: Vec, all: multiset<MemoryNode>,
                                          chain: seq<MemoryNode>, scores: seq<real>, t: nat)
    requires IsSqrt(sqrt) && e.beta >= 0.0
    requires GreedyRun(e, sqrt, query, all, chain, scores) && t < |chain| == |scores|
    ensures 0.0 <= scores[t] <= 1.0
    ensures scores[t] >= Power(e.beta, t) * scores[0]
    decreases t
  {
    hide Gate, GreedyRun;
    StepScore(e, sqrt, query, all, chain, scores, t);
    GateBounded(sqrt, chain[t], query, CentroidOf(chain[..t], query));
    if t == 0 {
      FirstScoreIsSquare(sqrt, chain[0], query);
    } else {
      AcceptedScores(e, sqrt, query, all, chain, scores, t - 1);
      PowerStep(e.beta, Power(e.beta, t - 1), scores[0], scores[t - 1]);
    }
  }

  lemma PowerStep(b: real, p: real, first: real, previous: real)
    requires b >= 0.0 && previous >= 0.0 && previous >= p * first
    ensures b * previous >= 0.0 && b * previous >= (b * p) * first
  {
    ProductNonNegative(b, previous);
    ProductNonNegative(b, previous - p * first);
    assert b * (p * first) == (b * p) * first;
  }

  lemma FirstScoreIsSquare(sqrt: SqrtFn, m: MemoryNode, query: Vec)
    requires |m.embedding| == |query|
    ensures Gate(sqrt, m, query, query) >= 0.0
  {
    SquareNonNegative(CosineSimilarity(sqrt, m.embedding, query));
  }

  /**
    Every gate score lies in [-1, 1]; every accepted one lies in [0, 1] and is at least the first one
    times beta to the power of its step.
   */
  lemma ScoresOfEvolution(e: DmceEngine, sqrt: SqrtFn, dim: nat, nodes: seq<MemoryNode>, query: Vec, t: nat)
    requires AllOfDim(nodes, dim) && IsSqrt(sqrt) && e.beta >= 0.0
    ensures var r := DiagnosticsOf(e, sqrt, dim, nodes, query);
            && (t < |r.stepScores| ==> -1.0 <= r.stepScores[t] <= 1.0)
            && |r.chain| <= |r.stepScores|
            && (t < |r.chain| ==> 0.0 <= r.stepScores[t] && r.stepScores[t] >= Power(e.beta, t) * r.stepScores[0])
  {
    hide DiagnosticsOf, Gate, GreedyRun, Candidates, CentroidOf;
    var r := DiagnosticsOf(e, sqrt, dim, nodes, query);
    var all := multiset(Candidates(e, sqrt, dim, nodes, query));
    EvolutionIsGreedy(e, sqrt, dim, nodes, query);
    if t < |r.chain| {
      AcceptedScores(e, sqrt, query, all, r.chain, r.stepScores[..|r.chain|], t);
    } else if t < |r.stepScores| {
      GreedyIsSized(e, sqrt, query, all, r.chain, r.stepScores[..|r.chain|]);
      var m :| m in all - multiset(r.chain)
               && IsBest(sqrt, query, CentroidOf(r.chain, query), all - multiset(r.chain), m, r.stepScores[t]);
      GateBounded(sqrt, m, query, CentroidOf(r.chain, query));
    }
  }

  /**
    Scoring against the mean of the chain or against the running sum gives the same gate, unless
    dividing by the chain length pushes the product of the norms below epsilon.
   */
  lemma CentroidOrSum(sqrt: SqrtFn, m: MemoryNode, chain: seq<MemoryNode>, query: Vec)
    requires IsSqrt(sqrt) && chain != [] && AllOfDim(chain, |query|) && |m.embedding| == |query|
    ensures var sum := SumOf(chain, |query|);
            var norms := Norm(sqrt, m.embedding) * Norm(sqrt, sum);
            CosineSimilarity(sqrt, m.embedding, CentroidOf(chain, query)) == CosineSimilarity(sqrt, m.embedding, sum)
            <==> || Dot(m.embedding, sum) == 0.0
                 || norms * (1.0 / |chain| as real) >= EPSILON
                 || norms < EPSILON
  {
    hide CosineSimilarity, Norm, Dot, SumOf, IsSqrt, Scale, Divide;
    var c := 1.0 / |chain| as real;
    ReciprocalBounds(|chain|);
    DivideIsScale(SumOf(chain, |query|), |chain| as real);
    CosineScaleDown(sqrt, m.embedding, SumOf(chain, |query|), c);
  }

  lemma ReciprocalBounds(n: nat)
    requires n >= 1
    ensures 0.0 < 1.0 / n as real <= 1.0
  {
    var x := n as real;
    var q := 1.0 / x;
    assert q * x == 1.0;
    if q > 1.0 {
      ProductPositive(q - 1.0, x);
    }
  }

  // ------------------------------------------------------------------
  // Monotonicity
  // ------------------------------------------------------------------

  ghost predicate PreviousIsNonNegative(g: Growth) {
    g.prevScore.Some? ==> g.prevScore.value >= 0.0
  }

  /** The score of a round is non-negative unless it is truncated. */
  lemma SurvivorIsNonNegative(e: DmceEngine, sqrt: SqrtFn, query: Vec, g: Growth)
    requires e.beta >= 0.0 && Sized(g, |query|) && g.pool != []
    requires PreviousIsNonNegative(g) && (g.prevScore.None? <==> g.chain == [])
    requires !Truncates(e, WinningScore(sqrt, g, query), g.prevScore)
    ensures WinningScore(sqrt, g, query) >= 0.0
  {
    hide Gate, BestIndex;
    if g.chain == [] {
      FirstScoreIsSquare(sqrt, g.pool[Winner(sqrt, g, query)], query);
    } else {
      ProductNonNegative(e.beta, g.prevScore.value);
    }
  }

  lemma {:induction false} GrowExtends(e: DmceEngine, sqrt: SqrtFn, query: Vec, g: Growth, steps: nat)
    requires Sized(g, |query|)
    ensures g.chain <= Grow(e, sqrt, query, g, steps).chain
    decreases steps
  {
    hide Grow, Accept, WinningScore;
    if steps == 0 {
      GrowStops(e, sqrt, query, g);
    } else {
      GrowStep(e, sqrt, query, g, steps);
      if g.pool != [] && !Truncates(e, WinningScore(sqrt, g, query), g.prevScore) {
        AcceptExtends(sqrt, g, query);
        GrowExtends(e, sqrt, query, Accept(sqrt, g, query), steps - 1);
      }
    }
  }

  /** From one state, more patience (a smaller beta, a larger cap) only prolongs the chain. */
  lemma {:induction false} GrowMonotone(strict: DmceEngine, lax: DmceEngine, sqrt: SqrtFn, query: Vec, g: Growth,
                                        few: nat, many: nat)
    requires 0.0 <= lax.beta <= strict.beta && few <= many
    requires Sized(g, |query|) && PreviousIsNonNegative(g) && (g.prevScore.None? <==> g.chain == [])
    ensures Grow(strict, sqrt, query, g, few).chain <= Grow(lax, sqrt, query, g, many).chain
    decreases few
  {
    hide Grow, Accept, WinningScore;
    if few == 0 {
      GrowStops(strict, sqrt, query, g);
      GrowExtends(lax, sqrt, query, g, many);
    } else {
      GrowStep(strict, sqrt, query, g, few);
      GrowStep(lax, sqrt, query, g, many);
      if g.pool != [] {
        var score := WinningScore(sqrt, g, query);
        if Truncates(strict, score, g.prevScore) {
          GrowExtends(lax, sqrt, query, g, many);
        } else {
          SurvivorIsNonNegative(strict, sqrt, query, g);
          assert !Truncates(lax, score, g.prevScore) by {
            if g.prevScore.Some? {
              ProductNonNegative(strict.beta - lax.beta, g.prevScore.value);
            }
          }
          AcceptExtends(sqrt, g, query);
          GrowMonotone(strict, lax, sqrt, query, Accept(sqrt, g, query), few - 1, many - 1);
        }
      }
    }
  }

  /**
    Truncation is monotone: with a larger beta or a smaller cap the chain is a prefix. So it is the
    larger beta that truncates more, contrary to the parameter table of the module documentation.
   */
  lemma LargerBetaGivesPrefix(strict: DmceEngine, lax: DmceEngine, sqrt: SqrtFn, dim: nat,
                              nodes: seq<MemoryNode>, query: Vec)
    requires AllOfDim(nodes, dim)
    requires 0.0 <= lax.beta <= strict.beta && strict.maxChainLen <= lax.maxChainLen && strict.topK == lax.topK
    ensures EvolveOf(strict, sqrt, dim, nodes, query) <= EvolveOf(lax, sqrt, dim, nodes, query)
  {
    var pool := Candidates(strict, sqrt, dim, nodes, query);
    GrowMonotone(strict, lax, sqrt, query, Seedling(pool, |query|), strict.maxChainLen, lax.maxChainLen);
  }

  /** In two greedy runs over the same candidates, equal beginnings have equal scores. */
  lemma SameScores(e: DmceEngine, f: DmceEngine, sqrt: SqrtFn, query: Vec, all: multiset<MemoryNode>,
                   a: seq<MemoryNode>, b: seq<MemoryNode>, x: seq<real>, y: seq<real>, t: nat)
    requires GreedyRun(e, sqrt, query, all, a, x) && GreedyRun(f, sqrt, query, all, b, y)
    requires t < |a| && t < |b| && a[..t + 1] == b[..t + 1]
    ensures |a| == |x| && |b| == |y| && x[t] == y[t]
  {
    hide GreedyRun, Gate, CentroidOf;
    StepScore(e, sqrt, query, all, a, x, t);
    StepScore(f, sqrt, query, all, b, y, t);
    assert a[..t + 1][..t] == a[..t] && b[..t + 1][..t] == b[..t];
    assert a[..t + 1][t] == a[t] && b[..t + 1][t] == b[t];
  }

  /** The best score over given candidates is unique. */
  lemma BestScoreIsUnique(sqrt: SqrtFn, query: Vec, centroid: Vec, others: multiset<MemoryNode>,
                          m: MemoryNode, x: real, n: MemoryNode, y: real)
    requires |centroid| == |query| && m in others && n in others
    requires IsBest(sqrt, query, centroid, others, m, x) && IsBest(sqrt, query, centroid, others, n, y)
    ensures x == y
  {
    hide Gate;
  }

  /** `r` is a greedy run whose next score fails its truncation rule; a longer run `c` has that very score next. */
  lemma TruncatedScore(e: DmceEngine, f: DmceEngine, sqrt: SqrtFn, query: Vec, all: multiset<MemoryNode>,
                       r: ChainResult, c: seq<MemoryNode>, y: seq<real>)
    requires AllOfDim(r.chain, |query|) && r.aptTriggered && Ended(e, sqrt, query, all, r)
    requires GreedyRun(f, sqrt, query, all, c, y)
    requires r.chain < c
    ensures |c| == |y| && |r.stepScores| == |r.chain| + 1 && r.stepScores[|r.chain|] == y[|r.chain|]
  {
    hide Gate, CentroidOf, IsBest;
    var n := |r.chain|;
    assert StepIsGreedy(f, sqrt, query, all, c, y, n);
    assert c[..n] == r.chain;
    var rest := all - multiset(r.chain);
    var m :| m in rest && IsBest(sqrt, query, CentroidOf(r.chain, query), rest, m, r.stepScores[n]);
    assert c[n] in rest by {
      NextIsLeft(all, c, n);
    }
    BestScoreIsUnique(sqrt, query, CentroidOf(r.chain, query), rest, m, r.stepScores[n], c[n], y[n]);
  }

  lemma NextIsLeft(all: multiset<MemoryNode>, c: seq<MemoryNode>, n: nat)
    requires multiset(c) <= all && n < |c|
    ensures c[n] in all - multiset(c[..n])
  {
    assert c == c[..n] + [c[n]] + c[n + 1..];
  }

  lemma WholeMeansAll(all: multiset<MemoryNode>, a: seq<MemoryNode>, b: seq<MemoryNode>)
    requires a <= b && multiset(b) <= all && multiset(a) == all
    ensures a == b
  {
    if |a| < |b| {
      assert b[..|a|] == a;
      NextIsLeft(all, b, |a|);
      assert false;
    }
  }

  /**
    Exactly which prefix: with a larger beta or a smaller cap the chain is the longest prefix of the
    other one, within the cap, whose scores in that other evolution obey the larger beta's own rule.
   */
  lemma LargerBetaPrefixIsExact(strict: DmceEngine, lax: DmceEngine, sqrt: SqrtFn, dim: nat,
                                nodes: seq<MemoryNode>, query: Vec)
    requires AllOfDim(nodes, dim)
    requires 0.0 <= lax.beta <= strict.beta && strict.maxChainLen <= lax.maxChainLen && strict.topK == lax.topK
    ensures var n := |EvolveOf(strict, sqrt, dim, nodes, query)|;
            var r := DiagnosticsOf(lax, sqrt, dim, nodes, query);
            && n <= |r.chain| <= |r.stepScores| && n <= strict.maxChainLen
            && EvolveOf(strict, sqrt, dim, nodes, query) == r.chain[..n]
            && (forall t :: 0 < t < n ==> r.stepScores[t] >= strict.beta * r.stepScores[t - 1])
            && (n < |r.chain| && n < strict.maxChainLen ==>
                  n > 0 && r.stepScores[n] < strict.beta * r.stepScores[n - 1])
  {
    hide DiagnosticsOf, EvolveOf, Candidates, GreedyRun, Gate, CentroidOf, IsBest;
    var all := multiset(Candidates(strict, sqrt, dim, nodes, query));
    SameCandidates(strict, lax, sqrt, dim, nodes, query);
    LargerBetaGivesPrefix(strict, lax, sqrt, dim, nodes, query);
    EvolutionsAgree(strict, sqrt, dim, nodes, query);
    EvolutionsAgree(lax, sqrt, dim, nodes, query);
    EvolutionIsGreedy(strict, sqrt, dim, nodes, query);
    EvolutionIsGreedy(lax, sqrt, dim, nodes, query);
    ExactPrefix(strict, lax, sqrt, query, all, DiagnosticsOf(strict, sqrt, dim, nodes, query),
                DiagnosticsOf(lax, sqrt, dim, nodes, query));
  }

  lemma SameCandidates(strict: DmceEngine, lax: DmceEngine, sqrt: SqrtFn, dim: nat,
                       nodes: seq<MemoryNode>, query: Vec)
    requires AllOfDim(nodes, dim) && strict.topK == lax.topK
    ensures Candidates(strict, sqrt, dim, nodes, query) == Candidates(lax, sqrt, dim, nodes, query)
  {
    hide TopKOf;
  }

  lemma ExactPrefix(strict: DmceEngine, lax: DmceEngine, sqrt: SqrtFn, query: Vec, all: multiset<MemoryNode>,
                    s: ChainResult, r: ChainResult)
    requires FaithfulResult(strict, sqrt, query, all, s) && FaithfulResult(lax, sqrt, query, all, r)
    requires s.chain <= r.chain
    ensures var n := |s.chain|;
            && n <= |r.chain| <= |r.stepScores| && n <= strict.maxChainLen
            && s.chain == r.chain[..n]
            && (forall t :: 0 < t < n ==> r.stepScores[t] >= strict.beta * r.stepScores[t - 1])
            && (n < |r.chain| && n < strict.maxChainLen ==>
                  n > 0 && r.stepScores[n] < strict.beta * r.stepScores[n - 1])
  {
    hide GreedyRun, Gate, CentroidOf, IsBest;
    var n := |s.chain|;
    var x, y := s.stepScores[..n], r.stepScores[..|r.chain|];
    forall t: nat | t < n
      ensures s.stepScores[t] == r.stepScores[t]
    {
      assert s.chain[..t + 1] == r.chain[..t + 1];
      SameScores(strict, lax, sqrt, query, all, s.chain, r.chain, x, y, t);
    }
    forall t: nat | 0 < t < n
      ensures r.stepScores[t] >= strict.beta * r.stepScores[t - 1]
    {
      StepScore(strict, sqrt, query, all, s.chain, x, t);
    }
    if n < |r.chain| && n < strict.maxChainLen {
      if s.aptTriggered {
        GreedyIsSized(strict, sqrt, query, all, s.chain, x);
        TruncatedScore(strict, lax, sqrt, query, all, s, r.chain, y);
      } else {
        RunIsWithin(lax, sqrt, query, all, r.chain, y);
        WholeMeansAll(all, s.chain, r.chain);
        assert false;
      }
    }
  }

  lemma RunIsWithin(e: DmceEngine, sqrt: SqrtFn, query: Vec, all: multiset<MemoryNode>,
                    chain: seq<MemoryNode>, scores: seq<real>)
    requires GreedyRun(e, sqrt, query, all, chain, scores)
    ensures multiset(chain) <= all
  {
  }

  // ------------------------------------------------------------------
  // A concrete store on which the larger beta truncates
  // ------------------------------------------------------------------

  const NEAR: MemoryNode := MemoryNode(1, "near", 0, User, [1.0])
  const BLANK: MemoryNode := MemoryNode(2, "blank", 0, User, [0.0])
  const AXIS: Vec := [1.0]

  lemma DotOne(x: real, y: real)
    ensures Dot([x], [y]) == x * y
  {
    assert [x][..0] == [] && [y][..0] == [];
  }

  lemma AxisScores(sqrt: SqrtFn)
    requires IsSqrt(sqrt)
    ensures CosineSimilarity(sqrt, AXIS, AXIS) == 1.0
    ensures CosineSimilarity(sqrt, AXIS, [0.0]) == 0.0 && CosineSimilarity(sqrt, [0.0], AXIS) == 0.0
  {
    DotOne(1.0, 1.0);
    DotOne(0.0, 0.0);
    DotOne(1.0, 0.0);
    DotOne(0.0, 1.0);
    SqrtUnique(sqrt, 1.0, 1.0);
    SqrtUnique(sqrt, 0.0, 0.0);
  }

  lemma AxisCandidates(e: DmceEngine, sqrt: SqrtFn)
    requires IsSqrt(sqrt) && e.topK == 2
    ensures Candidates(e, sqrt, 1, [NEAR, BLANK], AXIS) == [NEAR, BLANK]
  {
    hide CosineSimilarity, FilterMap, SortDescending;
    AxisScores(sqrt);
    var a, b := Scored(NEAR, 1.0), Scored(BLANK, 0.0);
    TwoKept(Scorer(sqrt, AXIS, []), NEAR, BLANK, a, b);
    TwoSorted(a, b);
    assert NodesOf([a, b]) == [NEAR, BLANK];
  }

  lemma TwoKept<A, B>(f: A -> Option<B>, x: A, y: A, a: B, b: B)
    requires f(x) == Some(a) && f(y) == Some(b)
    ensures FilterMap(f, [x, y]) == [a, b]
  {
    FilterMapPush(f, [], x);
    FilterMapPush(f, [x], y);
    assert [] + [x] == [x] && [x] + [y] == [x, y];
  }

  lemma TwoSorted<T>(a: Scored<T>, b: Scored<T>)
    requires a.score >= b.score
    ensures SortDescending([a, b]) == [a, b]
  {
    assert [a, b][..1] == [a] && [a][..0] == [];
    assert SortDescending([a]) == [a];
  }

  lemma AxisFirstStep(e: DmceEngine, sqrt: SqrtFn)
    requires IsSqrt(sqrt)
    ensures var g := Seedling([NEAR, BLANK], 1);
            && !Truncates(e, WinningScore(sqrt, g, AXIS), g.prevScore)
            && Accept(sqrt, g, AXIS) == Growth([NEAR], [BLANK], AXIS, Some(1.0))
  {
    hide CosineSimilarity;
    AxisScores(sqrt);
    var g := Seedling([NEAR, BLANK], 1);
    assert [NEAR, BLANK][..1] == [NEAR];
    assert BestIndex(sqrt, [NEAR], AXIS, AXIS) == 0;
    assert Winner(sqrt, g, AXIS) == 0;
    assert [NEAR, BLANK][0 := BLANK][..1] == [BLANK];
    assert Add(Zeros(1), [1.0]) == AXIS;
  }

  /** On two candidates, one of them blank, beta 1/2 keeps one node where beta 0 keeps both. */
  lemma LargerBetaTruncatesHere(sqrt: SqrtFn)
    requires IsSqrt(sqrt)
    ensures AllOfDim([NEAR, BLANK], 1)
    ensures EvolveOf(DmceEngine(0.5, 2, 2), sqrt, 1, [NEAR, BLANK], AXIS) == [NEAR]
    ensures EvolveOf(DmceEngine(0.0, 2, 2), sqrt, 1, [NEAR, BLANK], AXIS) == [NEAR, BLANK]
  {
    hide CosineSimilarity, Grow, Candidates;
    AxisScores(sqrt);
    var strict, lax := DmceEngine(0.5, 2, 2), DmceEngine(0.0, 2, 2);
    AxisCandidates(strict, sqrt);
    AxisCandidates(lax, sqrt);
    AxisFirstStep(strict, sqrt);
    AxisFirstStep(lax, sqrt);
    var start, second := Seedling([NEAR, BLANK], 1), Growth([NEAR], [BLANK], AXIS, Some(1.0));
    assert Divide(AXIS, 1.0) == AXIS;
    assert Winner(sqrt, second, AXIS) == 0 && WinningScore(sqrt, second, AXIS) == 0.0;
    GrowStep(strict, sqrt, AXIS, start, 2);
    GrowStep(strict, sqrt, AXIS, second, 1);
    GrowStep(lax, sqrt, AXIS, start, 2);
    GrowStep(lax, sqrt, AXIS, second, 1);
    GrowStops(lax, sqrt, AXIS, Accept(sqrt, second, AXIS));
  }
}
