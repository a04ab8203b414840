/** Filtering, ranking and truncation of sequences, as the retrieval code uses them. */
module Ranking {
  import opened Wrappers

  /** `iter().filter(..).map(..).collect()`. */
  function FilterMap<A, B>(f: A -> Option<B>, s: seq<A>): seq<B> {
    if s == [] then []
    else
      var rest, last := FilterMap(f, s[..|s| - 1]), f(s[|s| - 1]);
      if last.Some? then rest + [last.value] else rest
  }

  /** `Vec::truncate`. */
  function Take<T>(s: seq<T>, k: nat): seq<T> {
    if |s| <= k then s else s[..k]
  }

  lemma {:induction false} FilterMapConcat<A, B>(f: A -> Option<B>, a: seq<A>, b: seq<A>)
    ensures FilterMap(f, a + b) == FilterMap(f, a) + FilterMap(f, b)
  {
    if b == [] {
      assert a + b == a;
    } else {
      var c := b[..|b| - 1];
      FilterMapConcat(f, a, c);
      assert (a + b)[..|a + b| - 1] == a + c;
    }
  }

  lemma {:induction false} FilterMapPush<A, B>(f: A -> Option<B>, a: seq<A>, x: A)
    ensures FilterMap(f, a + [x]) == FilterMap(f, a) + if f(x).Some? then [f(x).value] else []
  {
    assert (a + [x])[..|a|] == a;
  }

  /** Every result comes from an element. */
  lemma {:induction false} FilterMapSource<A, B>(f: A -> Option<B>, s: seq<A>, i: nat) returns (j: nat)
    requires i < |FilterMap(f, s)|
    ensures j < |s| && f(s[j]) == Some(FilterMap(f, s)[i])
  {
    var n := |s| - 1;
    if i < |FilterMap(f, s[..n])| {
      j := FilterMapSource(f, s[..n], i);
    } else {
      j := n;
    }
  }

  /** Remove the last element of `a` from a permutation `b` of `a`. */
  lemma TakeOut<T>(a: seq<T>, b: seq<T>) returns (l: seq<T>, r: seq<T>)
    requires a != [] && multiset(a) == multiset(b)
    ensures b == l + [a[|a| - 1]] + r
    ensures multiset(l + r) == multiset(a[..|a| - 1])
  {
    var n := |a| - 1;
    var x := a[n];
    assert a == a[..n] + [x];
    assert x in multiset(b);
    var i :| 0 <= i < |b| && b[i] == x;
    l, r := b[..i], b[i + 1..];
    assert b == l + [x] + r;
    assert multiset(a[..n]) == multiset(a) - multiset{x};
    assert multiset(l + r) == multiset(b) - multiset{x};
  }

  lemma Push<T>(a: seq<T>, n: nat)
    requires |a| == n + 1
    ensures a == a[..n] + [a[n]]
    ensures multiset(a) == multiset(a[..n]) + multiset{a[n]}
  {
    assert a == a[..n] + [a[n]];
  }

  /** Permuting the input permutes the output. */
  lemma {:induction false} FilterMapPermutes<A, B>(f: A -> Option<B>, a: seq<A>, b: seq<A>)
    requires multiset(a) == multiset(b)
    ensures multiset(FilterMap(f, a)) == multiset(FilterMap(f, b))
    decreases |a|
  {
    if a == [] {
      assert |multiset(b)| == 0;
    } else {
      var n := |a| - 1;
      var x := a[n];
      var l, r := TakeOut(a, b);
      assert a == a[..n] + [x];
      FilterMapPermutes(f, a[..n], l + r);
      FilterMapConcat(f, l, r);
      FilterMapConcat(f, l + [x], r);
      FilterMapPush(f, l, x);
      FilterMapPush(f, a[..n], x);
    }
  }

  // ------------------------------------------------------------------
  // Ranking by descending score
  // ------------------------------------------------------------------

  datatype Scored<+T> = Scored(node: T, score: real)

  ghost predicate Descending<T>(s: seq<Scored<T>>) {
    forall i, j :: 0 <= i < j < |s| ==> s[i].score >= s[j].score
  }

  /** Insert behind all elements of at least the same score. */
  function Insert<T>(s: seq<Scored<T>>, x: Scored<T>): seq<Scored<T>> {
    if s == [] then [x]
    else if s[|s| - 1].score >= x.score then s + [x]
    else Insert(s[..|s| - 1], x) + [s[|s| - 1]]
  }

  /** A stable sort by descending score, which is what `sort_by` computes. */
  function SortDescending<T>(s: seq<Scored<T>>): seq<Scored<T>> {
    if s == [] then [] else Insert(SortDescending(s[..|s| - 1]), s[|s| - 1])
  }

  lemma {:induction false} InsertAdds<T>(s: seq<Scored<T>>, x: Scored<T>)
    ensures |Insert(s, x)| == |s| + 1
    ensures multiset(Insert(s, x)) == multiset(s) + multiset{x}
  {
    if s != [] && s[|s| - 1].score < x.score {
      InsertAdds(s[..|s| - 1], x);
      Push(s, |s| - 1);
    }
  }

  lemma {:induction false} InsertSorts<T>(s: seq<Scored<T>>, x: Scored<T>)
    requires Descending(s)
    ensures Descending(Insert(s, x))
  {
    if s != [] && s[|s| - 1].score < x.score {
      var n := |s| - 1;
      var shorter := Insert(s[..n], x);
      InsertSorts(s[..n], x);
      InsertAdds(s[..n], x);
      forall i | 0 <= i < |shorter|
        ensures shorter[i].score >= s[n].score
      {
        assert shorter[i] in multiset(shorter);
        assert shorter[i] == x || shorter[i] in s[..n];
      }
    }
  }

  /** The sort sorts, and only rearranges. */
  lemma {:induction false} SortSorts<T>(s: seq<Scored<T>>)
    ensures Descending(SortDescending(s))
    ensures multiset(SortDescending(s)) == multiset(s)
  {
    hide Insert, Descending;
    if s != [] {
      var n := |s| - 1;
      SortSorts(s[..n]);
      InsertSorts(SortDescending(s[..n]), s[n]);
      InsertAdds(SortDescending(s[..n]), s[n]);
      Push(s, n);
    } else {
      NothingDescends<T>();
    }
  }

  lemma NothingDescends<T>()
    ensures Descending<T>([])
  {
  }

  /** The elements of one score, in order. */
  function AtScore<T>(s: seq<Scored<T>>, score: real): seq<Scored<T>> {
    if s == [] then []
    else
      var rest, last := AtScore(s[..|s| - 1], score), s[|s| - 1];
      if last.score == score then rest + [last] else rest
  }

  lemma AtScorePush<T>(s: seq<Scored<T>>, x: Scored<T>, score: real)
    ensures AtScore(s + [x], score) == AtScore(s, score) + if x.score == score then [x] else []
  {
    assert (s + [x])[..|s|] == s;
  }

  lemma {:induction false} InsertIsStable<T>(s: seq<Scored<T>>, x: Scored<T>, score: real)
    ensures AtScore(Insert(s, x), score) == AtScore(s, score) + if x.score == score then [x] else []
  {
    if s == [] {
      AtScorePush([], x, score);
      assert [] + [x] == [x];
    } else if s[|s| - 1].score >= x.score {
      AtScorePush(s, x, score);
    } else {
      var n := |s| - 1;
      InsertIsStable(s[..n], x, score);
      AtScorePush(Insert(s[..n], x), s[n], score);
    }
  }

  /** Elements of equal score keep their order. */
  lemma {:induction false} SortIsStable<T>(s: seq<Scored<T>>, score: real)
    ensures AtScore(SortDescending(s), score) == AtScore(s, score)
  {
    if s != [] {
      SortIsStable(s[..|s| - 1], score);
      InsertIsStable(SortDescending(s[..|s| - 1]), s[|s| - 1], score);
    }
  }

  /** A sequence is split by truncation into a best part and a rest that is nowhere better. */
  lemma TakeKeepsBest<T>(s: seq<Scored<T>>, k: nat)
    requires Descending(s)
    ensures var best, rest := Take(s, k), s[|Take(s, k)|..];
            && multiset(best) + multiset(rest) == multiset(s)
            && (forall x, y :: x in best && y in rest ==> x.score >= y.score)
  {
    var best, rest := Take(s, k), s[|Take(s, k)|..];
    assert s == best + rest;
  }

  // ------------------------------------------------------------------
  // Two rankings of the same elements
  // ------------------------------------------------------------------

  function Scores<T>(s: seq<Scored<T>>): (r: seq<real>)
    ensures |r| == |s| && forall i :: 0 <= i < |s| ==> r[i] == s[i].score
  {
    seq(|s|, i requires 0 <= i < |s| => s[i].score)
  }

  ghost predicate DescendingReals(s: seq<real>) {
    forall i, j :: 0 <= i < j < |s| ==> s[i] >= s[j]
  }

  lemma {:induction false} SortedRealsUnique(a: seq<real>, b: seq<real>)
    requires DescendingReals(a) && DescendingReals(b) && multiset(a) == multiset(b)
    ensures a == b
    decreases |a|
  {
    if a == [] {
      assert |multiset(b)| == 0;
    } else {
      HeadIsGreatest(a, b);
      HeadIsGreatest(b, a);
      Pop(a);
      Pop(b);
      SortedRealsUnique(a[1..], b[1..]);
    }
  }

  lemma HeadIsGreatest(a: seq<real>, b: seq<real>)
    requires DescendingReals(a) && multiset(a) == multiset(b) && a != []
    ensures b != [] && a[0] >= b[0]
  {
    assert a[0] in multiset(b);
    assert b[0] in multiset(a);
  }

  lemma Pop<T>(a: seq<T>)
    requires a != []
    ensures a == [a[0]] + a[1..]
    ensures multiset(a[1..]) == multiset(a) - multiset{a[0]}
  {
    assert a == [a[0]] + a[1..];
  }

  lemma {:induction false} ScoresPermute<T>(a: seq<Scored<T>>, b: seq<Scored<T>>)
    requires multiset(a) == multiset(b)
    ensures multiset(Scores(a)) == multiset(Scores(b))
    decreases |a|
  {
    if a == [] {
      assert |multiset(b)| == 0;
    } else {
      var n := |a| - 1;
      var x := a[n];
      var l, r := TakeOut(a, b);
      ScoresPermute(a[..n], l + r);
      assert Scores(a) == Scores(a[..n]) + [x.score];
      assert Scores(b) == Scores(l) + [x.score] + Scores(r);
      assert Scores(l + r) == Scores(l) + Scores(r);
    }
  }

  ghost predicate DistinctScores<T>(s: seq<Scored<T>>) {
    forall i, j :: 0 <= i < j < |s| ==> s[i].score != s[j].score
  }

  /** Two rankings of the same elements have the same scores, and are the same when there are no ties. */
  lemma RankingsAgree<T>(a: seq<Scored<T>>, b: seq<Scored<T>>)
    requires Descending(a) && Descending(b) && multiset(a) == multiset(b)
    ensures Scores(a) == Scores(b)
    ensures DistinctScores(a) ==> a == b
  {
    ScoresPermute(a, b);
    SortedRealsUnique(Scores(a), Scores(b));
    assert |a| == |Scores(a)| == |b|;
    if DistinctScores(a) {
      forall i | 0 <= i < |a|
        ensures a[i] == b[i]
      {
        assert b[i] in multiset(a);
        var j :| 0 <= j < |a| && a[j] == b[i];
        assert a[i].score == Scores(a)[i] == Scores(b)[i] == b[i].score;
        assert i == j;
      }
    }
  }
}
