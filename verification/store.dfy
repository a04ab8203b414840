/** The in-memory store and its brute-force retrieval (`src/memory/store.rs`). */
module Store {
  import opened Wrappers
  import opened Vectors
  import opened Ranking

  datatype Role = User | Agent | System

  datatype MemoryNode = MemoryNode(id: nat, text: string, timestamp: nat, role: Role, embedding: Vec)

  datatype MemoryError = DimensionMismatch(expected: nat, got: nat)

  type ScoredNode = Scored<MemoryNode>

  ghost predicate AllOfDim(nodes: seq<MemoryNode>, dim: nat) {
    forall i :: 0 <= i < |nodes| ==> |nodes[i].embedding| == dim
  }

  /** Score a node against the query, unless its id is excluded. */
  function ScoreNode(sqrt: SqrtFn, query: Vec, exclude: seq<nat>, n: MemoryNode): Option<ScoredNode> {
    if n.id in exclude || |n.embedding| != |query| then None
    else Some(Scored(n, CosineSimilarity(sqrt, query, n.embedding)))
  }

  function Scorer(sqrt: SqrtFn, query: Vec, exclude: seq<nat>): MemoryNode -> Option<ScoredNode> {
    n => ScoreNode(sqrt, query, exclude, n)
  }

  function TopKOf(sqrt: SqrtFn, nodes: seq<MemoryNode>, query: Vec, k: nat, exclude: seq<nat>): seq<ScoredNode> {
    Take(SortDescending(FilterMap(Scorer(sqrt, query, exclude), nodes)), k)
  }

  class MemoryStore {
    const dim: nat
    var nodes: seq<MemoryNode>

    ghost predicate Valid()
      reads this
    {
      dim > 0 && AllOfDim(nodes, dim)
    }

    constructor (dim: nat)
      requires dim > 0
      ensures Valid() && this.dim == dim && nodes == []
    {
      this.dim := dim;
      nodes := [];
    }

    static method NewInMemory(dim: nat) returns (r: Fallible<MemoryStore, MemoryError>)
      ensures dim == 0 ==> r == Err(DimensionMismatch(1, 0))
      ensures dim > 0 ==> r.Ok? && fresh(r.value) && r.value.Valid() && r.value.dim == dim && r.value.nodes == []
    {
      if dim == 0 {
        return Err(DimensionMismatch(1, 0));
      }
      var store := new MemoryStore(dim);
      return Ok(store);
    }

    method Insert(node: MemoryNode) returns (r: Fallible<(), MemoryError>)
      requires Valid()
      modifies this
      ensures Valid()
      ensures if |node.embedding| == dim
              then r == Ok(()) && nodes == old(nodes) + [node]
              else r == Err(DimensionMismatch(dim, |node.embedding|)) && nodes == old(nodes)
    {
      if |node.embedding| != dim {
        return Err(DimensionMismatch(dim, |node.embedding|));
      }
      nodes := nodes + [node];
      return Ok(());
    }

    /** Inserts up to the first node of a wrong dimension, and keeps what it inserted. */
    method InsertBatch(batch: seq<MemoryNode>) returns (r: Fallible<(), MemoryError>)
      requires Valid()
      modifies this
      ensures Valid()
      ensures r.Ok? ==> nodes == old(nodes) + batch && AllOfDim(batch, dim)
      ensures !r.Ok? ==> exists i :: 0 <= i < |batch| && AllOfDim(batch[..i], dim)
                                     && |batch[i].embedding| != dim
                                     && r == Err(DimensionMismatch(dim, |batch[i].embedding|))
                                     && nodes == old(nodes) + batch[..i]
    {
      for i := 0 to |batch|
        invariant Valid()
        invariant nodes == old(nodes) + batch[..i] && AllOfDim(batch[..i], dim)
      {
        var inserted := Insert(batch[i]);
        if !inserted.Ok? {
          return inserted;
        }
        assert batch[..i + 1] == batch[..i] + [batch[i]];
      }
      assert batch[..|batch|] == batch;
      return Ok(());
    }

    method TopK(sqrt: SqrtFn, query: Vec, k: nat, exclude: seq<nat>)
      returns (r: Fallible<seq<ScoredNode>, MemoryError>)
      requires Valid()
      ensures if |query| == dim
              then r == Ok(TopKOf(sqrt, nodes, query, k, exclude))
              else r == Err(DimensionMismatch(dim, |query|))
    {
      if |query| != dim {
        return Err(DimensionMismatch(dim, |query|));
      }
      var scored: seq<ScoredNode> := [];
      for i := 0 to |nodes|
        invariant scored == FilterMap(Scorer(sqrt, query, exclude), nodes[..i])
      {
        FilterMapPush(Scorer(sqrt, query, exclude), nodes[..i], nodes[i]);
        assert nodes[..i + 1] == nodes[..i] + [nodes[i]];
        if nodes[i].id !in exclude {
          scored := scored + [Scored(nodes[i], CosineSimilarity(sqrt, query, nodes[i].embedding))];
        }
      }
      assert nodes[..|nodes|] == nodes;
      scored := SortDescending(scored);
      if k < |scored| {
        scored := scored[..k];
      }
      return Ok(scored);
    }
  }

  lemma EligibleScores(sqrt: SqrtFn, nodes: seq<MemoryNode>, query: Vec, exclude: seq<nat>, x: ScoredNode)
    requires IsSqrt(sqrt) && AllOfDim(nodes, |query|)
    requires x in FilterMap(Scorer(sqrt, query, exclude), nodes)
    ensures x.node in nodes && x.node.id !in exclude && |x.node.embedding| == |query|
    ensures x.score == CosineSimilarity(sqrt, query, x.node.embedding)
    ensures -1.0 <= x.score <= 1.0
  {
    hide CosineSimilarity, FilterMap;
    var eligible := FilterMap(Scorer(sqrt, query, exclude), nodes);
    var e :| 0 <= e < |eligible| && eligible[e] == x;
    var j := FilterMapSource(Scorer(sqrt, query, exclude), nodes, e);
    CosineBounded(sqrt, query, nodes[j].embedding);
  }

  function NodesOf(s: seq<ScoredNode>): (r: seq<MemoryNode>)
    ensures |r| == |s| && forall i :: 0 <= i < |s| ==> r[i] == s[i].node
  {
    seq(|s|, i requires 0 <= i < |s| => s[i].node)
  }

  /** `eligible` are the scored nodes whose id is not excluded, each as often as it is stored. */
  ghost predicate EligibleExactly(eligible: seq<ScoredNode>, nodes: seq<MemoryNode>, exclude: seq<nat>) {
    forall n: MemoryNode ::
      multiset(NodesOf(eligible))[n] == if n.id in exclude then 0 else multiset(nodes)[n]
  }

  lemma {:induction false} FilterKeepsEligible(sqrt: SqrtFn, nodes: seq<MemoryNode>, query: Vec, exclude: seq<nat>)
    requires AllOfDim(nodes, |query|)
    ensures EligibleExactly(FilterMap(Scorer(sqrt, query, exclude), nodes), nodes, exclude)
  {
    hide CosineSimilarity;
    if nodes != [] {
      var k := |nodes| - 1;
      var f := Scorer(sqrt, query, exclude);
      FilterKeepsEligible(sqrt, nodes[..k], query, exclude);
      Push(nodes, k);
      var before, all := FilterMap(f, nodes[..k]), FilterMap(f, nodes);
      if f(nodes[k]).Some? {
        assert NodesOf(all) == NodesOf(before) + [nodes[k]];
      }
    }
  }

  lemma {:induction false} NodesAsFilter(s: seq<ScoredNode>)
    ensures FilterMap((x: ScoredNode) => Some(x.node), s) == NodesOf(s)
  {
    if s != [] {
      var n := |s| - 1;
      NodesAsFilter(s[..n]);
      assert NodesOf(s) == NodesOf(s[..n]) + [s[n].node];
    }
  }

  /** Rearranging scored nodes rearranges the nodes. */
  lemma NodesPermute(a: seq<ScoredNode>, b: seq<ScoredNode>)
    requires multiset(a) == multiset(b)
    ensures multiset(NodesOf(a)) == multiset(NodesOf(b))
  {
    hide FilterMap, NodesOf;
    NodesAsFilter(a);
    NodesAsFilter(b);
    FilterMapPermutes((x: ScoredNode) => Some(x.node), a, b);
  }

  /**
    Retrieval returns a best part of the eligible nodes: as many as asked for, ordered by descending
    score, each with its cosine score in [-1, 1], and no node left out scores better than one returned.
    Nodes of equal score keep their insertion order.
   */
  lemma TopKIsBest(sqrt: SqrtFn, nodes: seq<MemoryNode>, query: Vec, k: nat, exclude: seq<nat>)
    returns (rest: seq<ScoredNode>)
    requires IsSqrt(sqrt) && AllOfDim(nodes, |query|)
    ensures var eligible := FilterMap(Scorer(sqrt, query, exclude), nodes);
            var best := TopKOf(sqrt, nodes, query, k, exclude);
            && |best| == (if |eligible| <= k then |eligible| else k)
            && Descending(best)
            && multiset(best) + multiset(rest) == multiset(eligible)
            && (forall x, y :: x in best && y in rest ==> x.score >= y.score)
            && (forall score: real :: AtScore(best + rest, score) == AtScore(eligible, score))
            && EligibleExactly(best + rest, nodes, exclude)
    ensures forall x :: x in TopKOf(sqrt, nodes, query, k, exclude) ==>
                          && x.node in nodes && x.node.id !in exclude && |x.node.embedding| == |query|
                          && x.score == CosineSimilarity(sqrt, query, x.node.embedding)
                          && -1.0 <= x.score <= 1.0
  {
    hide CosineSimilarity, FilterMap, SortDescending, AtScore, NodesOf, EligibleExactly, IsSqrt, Scorer;
    var eligible := FilterMap(Scorer(sqrt, query, exclude), nodes);
    var sorted := SortDescending(eligible);
    var best := TopKOf(sqrt, nodes, query, k, exclude);
    SortSorts(eligible);
    SameSize(sorted, eligible);
    TakeKeepsBest(sorted, k);
    rest := sorted[|best|..];
    assert sorted == best + rest;
    FilterKeepsEligible(sqrt, nodes, query, exclude);
    SameNodesEligible(sorted, eligible, nodes, exclude);
    forall score: real
      ensures AtScore(sorted, score) == AtScore(eligible, score)
    {
      SortIsStable(eligible, score);
    }
    ScoredAreEligible(sqrt, nodes, query, exclude, best, rest);
  }

  lemma SameNodesEligible(a: seq<ScoredNode>, b: seq<ScoredNode>, nodes: seq<MemoryNode>, exclude: seq<nat>)
    requires multiset(a) == multiset(b) && EligibleExactly(b, nodes, exclude)
    ensures EligibleExactly(a, nodes, exclude)
  {
    hide NodesOf;
    NodesPermute(a, b);
  }

  lemma ScoredAreEligible(sqrt: SqrtFn, nodes: seq<MemoryNode>, query: Vec, exclude: seq<nat>,
                          best: seq<ScoredNode>, rest: seq<ScoredNode>)
    requires IsSqrt(sqrt) && AllOfDim(nodes, |query|)
    requires multiset(best) + multiset(rest) == multiset(FilterMap(Scorer(sqrt, query, exclude), nodes))
    ensures forall x :: x in best ==>
                          && x.node in nodes && x.node.id !in exclude && |x.node.embedding| == |query|
                          && x.score == CosineSimilarity(sqrt, query, x.node.embedding)
                          && -1.0 <= x.score <= 1.0
  {
    hide CosineSimilarity, FilterMap;
    forall x | x in best
      ensures && x.node in nodes && x.node.id !in exclude && |x.node.embedding| == |query|
              && x.score == CosineSimilarity(sqrt, query, x.node.embedding)
              && -1.0 <= x.score <= 1.0
    {
      assert x in multiset(best) + multiset(rest);
      assert x in multiset(FilterMap(Scorer(sqrt, query, exclude), nodes));
      EligibleScores(sqrt, nodes, query, exclude, x);
    }
  }

  lemma SameSize<T>(a: seq<T>, b: seq<T>)
    requires multiset(a) == multiset(b)
    ensures |a| == |b|
  {
    assert |multiset(a)| == |a| && |multiset(b)| == |b|;
  }
}
