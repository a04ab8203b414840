/** Retrieval through the vector index (`src/memory/lance_store.rs`), against the brute-force store. */
module LanceStore {
  import opened Wrappers
  import opened Vectors
  import opened Ranking
  import opened Store

  /** A row of the index: a node, with the distance column when the index supplies one. */
  datatype Row = Row(node: MemoryNode, distance: Option<real>)

  /** The score of a row, unless its id is excluded. */
  function ScoreRow(exclude: seq<nat>, row: Row): Option<ScoredNode> {
    if row.node.id in exclude then None
    else Some(Scored(row.node, 1.0 - row.distance.GetOr(0.0) / 2.0))
  }

  function RowScorer(exclude: seq<nat>): Row -> Option<ScoredNode> {
    row => ScoreRow(exclude, row)
  }

  function Flatten<T>(batches: seq<seq<T>>): seq<T> {
    if batches == [] then [] else Flatten(batches[..|batches| - 1]) + batches[|batches| - 1]
  }

  /** How many rows come before batch `b`. */
  function Before<T>(batches: seq<seq<T>>, b: nat): nat
    requires b <= |batches|
  {
    if b == 0 then 0 else Before(batches, b - 1) + |batches[b - 1]|
  }

  /** `rows` cut into batches: row `i` of batch `b` is behind all rows of the batches before it. */
  ghost predicate IsSplit<T>(batches: seq<seq<T>>, rows: seq<T>) {
    && |rows| == Before(batches, |batches|)
    && forall b, i :: 0 <= b < |batches| && 0 <= i < |batches[b]| ==> RowAt(rows, Before(batches, b) + i, batches[b][i])
  }

  predicate RowAt<T(==)>(rows: seq<T>, position: nat, row: T) {
    position < |rows| && rows[position] == row
  }

  lemma {:induction false} BeforePrefix<T>(batches: seq<seq<T>>, n: nat, b: nat)
    requires b <= n <= |batches|
    ensures Before(batches[..n], b) == Before(batches, b)
  {
    if b > 0 {
      BeforePrefix(batches, n, b - 1);
    }
  }

  lemma SplitPrefix<T>(batches: seq<seq<T>>, rows: seq<T>)
    requires IsSplit(batches, rows) && batches != []
    ensures var n := |batches| - 1;
            var cut := Before(batches, n);
            && cut <= |rows| && rows == rows[..cut] + batches[n]
            && IsSplit(batches[..n], rows[..cut])
  {
    hide IsSplit, Before;
    var n := |batches| - 1;
    SplitLast(batches, rows);
    SplitFirst(batches, rows, n);
  }

  lemma SplitLast<T>(batches: seq<seq<T>>, rows: seq<T>)
    requires IsSplit(batches, rows) && batches != []
    ensures var cut := Before(batches, |batches| - 1);
            cut <= |rows| && rows == rows[..cut] + batches[|batches| - 1]
  {
    hide Before;
    var n := |batches| - 1;
    var cut := Before(batches, n);
    LastBatch(batches);
    forall i | 0 <= i < |batches[n]|
      ensures rows[cut + i] == batches[n][i]
    {
      assert RowAt(rows, Before(batches, n) + i, batches[n][i]);
    }
    assert rows[cut..] == batches[n];
  }

  lemma SplitFirst<T>(batches: seq<seq<T>>, rows: seq<T>, n: nat)
    requires IsSplit(batches, rows) && n < |batches| && Before(batches, n) <= |rows|
    ensures IsSplit(batches[..n], rows[..Before(batches, n)])
  {
    hide Before;
    var first, cut := batches[..n], Before(batches, n);
    BeforePrefix(batches, n, n);
    forall b, i | 0 <= b < n && 0 <= i < |batches[b]|
      ensures Before(first, b) == Before(batches, b) && RowAt(rows[..cut], Before(batches, b) + i, batches[b][i])
    {
      BeforePrefix(batches, n, b);
      BeforeGrows(batches, b, n);
      assert RowAt(rows, Before(batches, b) + i, batches[b][i]);
    }
  }

  lemma LastBatch<T>(batches: seq<seq<T>>)
    requires batches != []
    ensures Before(batches, |batches|) == Before(batches, |batches| - 1) + |batches[|batches| - 1]|
  {
  }

  lemma {:induction false} BeforeGrows<T>(batches: seq<seq<T>>, b: nat, n: nat)
    requires b < n <= |batches|
    ensures Before(batches, b) + |batches[b]| <= Before(batches, n)
    decreases n
  {
    if b < n - 1 {
      BeforeGrows(batches, b, n - 1);
    }
  }

  /** Reading batch after batch gives the rows that were cut into them: none is lost, repeated or moved. */
  lemma {:induction false} FlattenIff<T>(batches: seq<seq<T>>, rows: seq<T>)
    ensures IsSplit(batches, rows) <==> Flatten(batches) == rows
  {
    hide IsSplit, Before;
    if batches == [] {
      NoBatches(batches, rows);
    } else {
      var n := |batches| - 1;
      if IsSplit(batches, rows) {
        SplitPrefix(batches, rows);
        FlattenIff(batches[..n], rows[..Before(batches, n)]);
      }
      if Flatten(batches) == rows {
        FlattenIff(batches[..n], Flatten(batches[..n]));
        SplitPush(batches, Flatten(batches[..n]));
      }
    }
  }

  lemma NoBatches<T>(batches: seq<seq<T>>, rows: seq<T>)
    requires batches == []
    ensures IsSplit(batches, rows) <==> rows == []
  {
  }

  lemma SplitPush<T>(batches: seq<seq<T>>, rows: seq<T>)
    requires batches != [] && IsSplit(batches[..|batches| - 1], rows)
    ensures IsSplit(batches, rows + batches[|batches| - 1])
  {
    hide Before;
    var n := |batches| - 1;
    var all := rows + batches[n];
    LastBatch(batches);
    BeforePrefix(batches, n, n);
    forall b, i | 0 <= b < |batches| && 0 <= i < |batches[b]|
      ensures RowAt(all, Before(batches, b) + i, batches[b][i])
    {
      if b < n {
        BeforePrefix(batches, n, b);
        assert RowAt(rows, Before(batches[..n], b) + i, batches[..n][b][i]);
      }
    }
  }

  function LanceTopKOf(rows: seq<Row>, k: nat, exclude: seq<nat>): seq<ScoredNode> {
    Take(FilterMap(RowScorer(exclude), rows), k)
  }

  /** How many rows are requested. */
  function FetchK(k: nat, exclude: seq<nat>): nat {
    k + |exclude|
  }

  /** `top_k` on the batches that the index returns for `FetchK(k, exclude)` nearest rows. */
  method TopK(dim: nat, query: Vec, batches: seq<seq<Row>>, k: nat, exclude: seq<nat>)
    returns (r: Fallible<seq<ScoredNode>, MemoryError>)
    ensures if |query| == dim
            then r == Ok(LanceTopKOf(Flatten(batches), k, exclude))
            else r == Err(DimensionMismatch(dim, |query|))
    ensures |query| == dim ==>
              forall rows :: IsSplit(batches, rows) ==> r == Ok(LanceTopKOf(rows, k, exclude))
  {
    if |query| != dim {
      return Err(DimensionMismatch(dim, |query|));
    }
    var scored: seq<ScoredNode> := [];
    for b := 0 to |batches|
      invariant scored == FilterMap(RowScorer(exclude), Flatten(batches[..b]))
    {
      var batch := batches[b];
      ghost var before := Flatten(batches[..b]);
      assert before + batch[..0] == before;
      for i := 0 to |batch|
        invariant scored == FilterMap(RowScorer(exclude), before + batch[..i])
      {
        FilterMapPush(RowScorer(exclude), before + batch[..i], batch[i]);
        assert before + batch[..i] + [batch[i]] == before + batch[..i + 1];
        if batch[i].node.id in exclude {
          continue;
        }
        var distance := if batch[i].distance.Some? then batch[i].distance.value else 0.0;
        scored := scored + [Scored(batch[i].node, 1.0 - distance / 2.0)];
      }
      assert batch[..|batch|] == batch;
      assert batches[..b + 1][..b] == batches[..b];
    }
    assert batches[..|batches|] == batches;
    if k < |scored| {
      scored := scored[..k];
    }
    forall rows | IsSplit(batches, rows)
      ensures rows == Flatten(batches)
    {
      FlattenIff(batches, rows);
    }
    return Ok(scored);
  }

  // ------------------------------------------------------------------
  // Distances and similarities
  // ------------------------------------------------------------------

  /** Squared Euclidean distance, what the index reports. */
  function SquaredDistance(a: Vec, b: Vec): real
    requires |a| == |b|
  {
    if a == [] then 0.0
    else
      var n := |a| - 1;
      SquaredDistance(a[..n], b[..n]) + (a[n] - b[n]) * (a[n] - b[n])
  }

  lemma {:induction false} SquaredDistanceExpands(a: Vec, b: Vec)
    requires |a| == |b|
    ensures SquaredDistance(a, b) == Dot(a, a) + Dot(b, b) - 2.0 * Dot(a, b)
  {
    if a != [] {
      var n := |a| - 1;
      SquaredDistanceExpands(a[..n], b[..n]);
      SquareOfDifference(a[n], b[n]);
    }
  }

  lemma SquareOfDifference(x: real, y: real)
    ensures (x - y) * (x - y) == x * x + y * y - 2.0 * (x * y)
  {
  }

  /** The converted distance is the dot product exactly when the squared norms add up to 2. */
  lemma ConvertedDistanceIff(a: Vec, b: Vec)
    requires |a| == |b|
    ensures 1.0 - SquaredDistance(a, b) / 2.0 == Dot(a, b) <==> Dot(a, a) + Dot(b, b) == 2.0
  {
    SquaredDistanceExpands(a, b);
  }

  lemma UnitScoresAgree(sqrt: SqrtFn, a: Vec, b: Vec)
    requires IsSqrt(sqrt) && |a| == |b| && IsUnit(a) && IsUnit(b)
    ensures 1.0 - SquaredDistance(a, b) / 2.0 == CosineSimilarity(sqrt, a, b)
  {
    ConvertedDistanceIff(a, b);
    SqrtUnique(sqrt, 1.0, 1.0);
  }

  // ------------------------------------------------------------------
  // Over-fetching by the number of exclusions is enough
  // ------------------------------------------------------------------

  ghost predicate DistinctIds(rows: seq<Row>) {
    forall i, j :: 0 <= i < j < |rows| ==> rows[i].node.id != rows[j].node.id
  }

  function ExcludedIds(rows: seq<Row>, exclude: seq<nat>): set<nat> {
    set i | 0 <= i < |rows| && rows[i].node.id in exclude :: rows[i].node.id
  }

  function IdSet(ids: seq<nat>): set<nat> {
    set x | x in ids
  }

  lemma {:induction false} IdSetIsSmall(ids: seq<nat>)
    ensures |IdSet(ids)| <= |ids|
  {
    if ids != [] {
      var n := |ids| - 1;
      IdSetIsSmall(ids[..n]);
      assert ids == ids[..n] + [ids[n]];
      assert IdSet(ids) == IdSet(ids[..n]) + {ids[n]};
    }
  }

  /** With distinct ids, the rows that the filter drops are as many as the excluded ids among them. */
  lemma {:induction false} DroppedRows(rows: seq<Row>, exclude: seq<nat>)
    requires DistinctIds(rows)
    ensures |FilterMap(RowScorer(exclude), rows)| + |ExcludedIds(rows, exclude)| == |rows|
  {
    if rows != [] {
      var n := |rows| - 1;
      var shorter := rows[..n];
      DroppedRows(shorter, exclude);
      var id := rows[n].node.id;
      assert forall i :: 0 <= i < n ==> shorter[i] == rows[i];
      assert id !in ExcludedIds(shorter, exclude);
      assert ExcludedIds(rows, exclude) == ExcludedIds(shorter, exclude) + if id in exclude then {id} else {};
    }
  }

  lemma DroppedAtMost(rows: seq<Row>, exclude: seq<nat>)
    requires DistinctIds(rows)
    ensures |FilterMap(RowScorer(exclude), rows)| + |exclude| >= |rows|
  {
    DroppedRows(rows, exclude);
    IdSetIsSmall(exclude);
    SubsetIsSmaller(ExcludedIds(rows, exclude), IdSet(exclude));
  }

  /** Truncating the scan to any number of rows loses nothing exactly when enough rows survive the filter. */
  lemma FetchSufficesIff(all: seq<Row>, fetched: nat, k: nat, exclude: seq<nat>)
    ensures LanceTopKOf(Take(all, fetched), k, exclude) == LanceTopKOf(all, k, exclude)
            <==> var kept := |FilterMap(RowScorer(exclude), Take(all, fetched))|;
                 kept >= k || kept == |FilterMap(RowScorer(exclude), all)|
  {
    if fetched < |all| {
      var near, far := all[..fetched], all[fetched..];
      assert all == near + far;
      FilterMapConcat(RowScorer(exclude), near, far);
    }
  }

  /** Fetching `k + |exclude|` of the nearest rows, in any batches, loses nothing over fetching all of them. */
  lemma OverFetchSuffices(all: seq<Row>, batches: seq<seq<Row>>, k: nat, exclude: seq<nat>)
    requires DistinctIds(all) && IsSplit(batches, Take(all, k + |exclude|))
    ensures LanceTopKOf(Flatten(batches), k, exclude) == LanceTopKOf(all, k, exclude)
  {
    FlattenIff(batches, Take(all, k + |exclude|));
    FetchSufficesIff(all, FetchK(k, exclude), k, exclude);
    DroppedAtMost(Take(all, FetchK(k, exclude)), exclude);
  }

  // ------------------------------------------------------------------
  // The index refines the brute-force store
  // ------------------------------------------------------------------

  function Nodes(rows: seq<Row>): seq<MemoryNode> {
    seq(|rows|, i requires 0 <= i < |rows| => rows[i].node)
  }

  /** An exact scan: all stored nodes, each with its squared distance, nearest first. */
  ghost predicate ExactScan(rows: seq<Row>, nodes: seq<MemoryNode>, query: Vec) {
    && multiset(Nodes(rows)) == multiset(nodes)
    && (forall i :: 0 <= i < |rows| ==> |rows[i].node.embedding| == |query|
                                        && rows[i].distance == Some(SquaredDistance(query, rows[i].node.embedding)))
    && (forall i, j :: 0 <= i < j < |rows| ==> rows[i].distance.GetOr(0.0) <= rows[j].distance.GetOr(0.0))
  }

  ghost predicate AllUnit(nodes: seq<MemoryNode>) {
    forall i :: 0 <= i < |nodes| ==> IsUnit(nodes[i].embedding)
  }

  /** On an exact scan of unit vectors, both stores give every node the same score. */
  lemma {:induction false} RowScoresAreCosines(sqrt: SqrtFn, rows: seq<Row>, query: Vec, exclude: seq<nat>)
    requires IsSqrt(sqrt) && IsUnit(query) && AllUnit(Nodes(rows))
    requires forall i :: 0 <= i < |rows| ==> |rows[i].node.embedding| == |query|
                                             && rows[i].distance == Some(SquaredDistance(query, rows[i].node.embedding))
    ensures FilterMap(RowScorer(exclude), rows) == FilterMap(Scorer(sqrt, query, exclude), Nodes(rows))
  {
    if rows != [] {
      var n := |rows| - 1;
      assert Nodes(rows)[..n] == Nodes(rows[..n]);
      assert IsUnit(Nodes(rows)[n].embedding);
      UnitScoresAgree(sqrt, query, rows[n].node.embedding);
      RowScoresAreCosines(sqrt, rows[..n], query, exclude);
    }
  }

  lemma {:induction false} FilteredScanDescends(rows: seq<Row>, exclude: seq<nat>)
    requires forall i, j :: 0 <= i < j < |rows| ==> rows[i].distance.GetOr(0.0) <= rows[j].distance.GetOr(0.0)
    ensures Descending(FilterMap(RowScorer(exclude), rows))
  {
    if rows != [] {
      var n := |rows| - 1;
      FilteredScanDescends(rows[..n], exclude);
      var kept := FilterMap(RowScorer(exclude), rows[..n]);
      forall i | 0 <= i < |kept|
        ensures kept[i].score >= 1.0 - rows[n].distance.GetOr(0.0) / 2.0
      {
        var j := FilterMapSource(RowScorer(exclude), rows[..n], i);
        assert rows[..n][j] == rows[j];
      }
    }
  }

  /**
    Given distinct ids, unit vectors and an exact scan, fetching `k + |exclude|` rows in any batches,
    filtering, truncating and converting distances returns the scores of the brute-force store, in order,
    and the same nodes as well when no two eligible nodes tie.
   */
  lemma IndexRefinesStore(sqrt: SqrtFn, nodes: seq<MemoryNode>, rows: seq<Row>, batches: seq<seq<Row>>,
                          query: Vec, k: nat, exclude: seq<nat>)
    requires IsSqrt(sqrt) && IsUnit(query) && AllUnit(nodes)
    requires ExactScan(rows, nodes, query) && DistinctIds(rows)
    requires IsSplit(batches, Take(rows, FetchK(k, exclude)))
    ensures var viaIndex := LanceTopKOf(Flatten(batches), k, exclude);
            var viaStore := TopKOf(sqrt, nodes, query, k, exclude);
            && Scores(viaIndex) == Scores(viaStore)
            && (DistinctScores(FilterMap(RowScorer(exclude), rows)) ==> viaIndex == viaStore)
  {
    var scan := FilterMap(RowScorer(exclude), rows);
    var eligible := FilterMap(Scorer(sqrt, query, exclude), nodes);
    var sorted := SortDescending(eligible);
    OverFetchSuffices(rows, batches, k, exclude);
    assert AllUnit(Nodes(rows)) by {
      forall i | 0 <= i < |rows|
        ensures IsUnit(Nodes(rows)[i].embedding)
      {
        assert Nodes(rows)[i] in multiset(nodes);
      }
    }
    RowScoresAreCosines(sqrt, rows, query, exclude);
    FilterMapPermutes(Scorer(sqrt, query, exclude), Nodes(rows), nodes);
    FilteredScanDescends(rows, exclude);
    SortSorts(eligible);
    RankingsAgree(scan, sorted);
    TakeScores(scan, sorted, k);
  }

  lemma TakeScores<T>(a: seq<Scored<T>>, b: seq<Scored<T>>, k: nat)
    requires Scores(a) == Scores(b)
    ensures Scores(Take(a, k)) == Scores(Take(b, k))
  {
    assert |a| == |Scores(a)| == |b|;
    assert Scores(Take(a, k)) == Take(Scores(a), k);
    assert Scores(Take(b, k)) == Take(Scores(b), k);
  }

  /** A row for which the index reports no distance counts as distance 0, that is as a perfect match. */
  lemma MissingDistanceScoresOne(node: MemoryNode, k: nat)
    requires k >= 1
    ensures LanceTopKOf([Row(node, None)], k, []) == [Scored(node, 1.0)]
  {
    FilterMapPush(RowScorer([]), [], Row(node, None));
    assert [] + [Row(node, None)] == [Row(node, None)];
  }

  /**
    Distinct ids are needed: a node stored twice uses up two fetched rows but one exclusion, and the
    index then returns nothing although an eligible node exists.
   */
  lemma DuplicateIdsLoseResults(twice: MemoryNode, other: MemoryNode, d: real, e: real)
    requires twice.id != other.id
    ensures var rows := [Row(twice, Some(d)), Row(twice, Some(d)), Row(other, Some(e))];
            var exclude := [twice.id];
            && LanceTopKOf(Take(rows, FetchK(1, exclude)), 1, exclude) == []
            && LanceTopKOf(rows, 1, exclude) == [Scored(other, 1.0 - e / 2.0)]
  {
    var rows := [Row(twice, Some(d)), Row(twice, Some(d)), Row(other, Some(e))];
    var f := RowScorer([twice.id]);
    assert rows[..2] == [rows[0]] + [rows[1]] && rows == rows[..2] + [rows[2]];
    assert [] + [rows[0]] == [rows[0]];
    FilterMapPush(f, [], rows[0]);
    FilterMapPush(f, [rows[0]], rows[1]);
    FilterMapPush(f, rows[..2], rows[2]);
  }
}
