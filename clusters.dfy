/**
 * The cluster partition shared by both generators: global vertex numbering
 * by cluster offsets, the order in which cluster pairs are visited, and the
 * parameters of the symmetric stochastic block model.
 */
module Clusters {
  import opened EdgeIndex

  datatype Option<T> = None | Some(value: T)

  /** A pair of cluster indices (cluster_1, cluster_2). */
  type ClusterPair = (nat, nat)

  // ---------------------------------------------------------------------
  // Global vertex numbering
  // ---------------------------------------------------------------------

  /** Global index of the first vertex of cluster i: the sum of the sizes of the clusters before it. */
  function Offset(sizes: seq<nat>, i: nat): nat
    requires i <= |sizes|
  {
    if i == 0 then 0 else Offset(sizes, i - 1) + sizes[i - 1]
  }

  /** The number of vertices of the graph, sum(cluster_sizes). */
  function Total(sizes: seq<nat>): nat {
    Offset(sizes, |sizes|)
  }

  lemma {:induction false} OffsetMonotone(sizes: seq<nat>, i: nat, j: nat)
    requires i <= j <= |sizes|
    ensures Offset(sizes, i) <= Offset(sizes, j)
  {
    if i < j {
      OffsetMonotone(sizes, i, j - 1);
    }
  }

  /** Cluster i occupies [Offset(i), Offset(i) + sizes[i]), which ends at or before the start of every later cluster and the total. */
  lemma {:induction false} ClusterRangeBefore(sizes: seq<nat>, i: nat, j: nat)
    requires i < j <= |sizes|
    ensures Offset(sizes, i) + sizes[i] <= Offset(sizes, j) <= Total(sizes)
  {
    assert Offset(sizes, i + 1) == Offset(sizes, i) + sizes[i];
    OffsetMonotone(sizes, i + 1, j);
    OffsetMonotone(sizes, j, |sizes|);
    assert Total(sizes) == Offset(sizes, |sizes|);
  }

  /** A local index inside cluster i becomes a global index inside cluster i's range, below the total. */
  lemma {:induction false} GlobalIndexInRange(sizes: seq<nat>, i: nat, x: nat)
    requires i < |sizes| && x < sizes[i]
    ensures Offset(sizes, i) + x < Offset(sizes, i + 1) <= Total(sizes)
  {
    ClusterRangeBefore(sizes, i, |sizes|);
    OffsetMonotone(sizes, i + 1, |sizes|);
  }

  /** Global vertex x belongs to cluster i. */
  predicate InCluster(sizes: seq<nat>, x: nat, i: nat) {
    i < |sizes| && Offset(sizes, i) <= x < Offset(sizes, i) + sizes[i]
  }

  lemma ClusterOfUnique(sizes: seq<nat>, x: nat, i: nat, i': nat)
    requires InCluster(sizes, x, i) && InCluster(sizes, x, i')
    ensures i == i'
  {
    if i < i' {
      ClusterRangeBefore(sizes, i, i');
    } else if i' < i {
      ClusterRangeBefore(sizes, i', i);
    }
  }

  /** An index below the first vertex of cluster m lies in one of the clusters 0 .. m-1. */
  lemma {:induction false} IndexCovered(sizes: seq<nat>, x: nat, m: nat)
    requires m <= |sizes| && x < Offset(sizes, m)
    ensures exists i: nat :: i < m && InCluster(sizes, x, i)
  {
    if x < Offset(sizes, m - 1) {
      IndexCovered(sizes, x, m - 1);
    } else {
      assert InCluster(sizes, x, m - 1);
    }
  }

  // ---------------------------------------------------------------------
  // The order in which cluster pairs are visited
  // ---------------------------------------------------------------------

  /** The first cluster_2 visited with a given cluster_1: every cluster when directed, cluster_1 onwards otherwise. */
  function SecondStart(i: nat, directed: bool): nat {
    if directed then 0 else i
  }

  /** The first n pairs visited with cluster_1 = i. */
  function RowPrefix(k: nat, i: nat, directed: bool, n: nat): (row: seq<ClusterPair>)
    requires i < k && SecondStart(i, directed) + n <= k
    ensures |row| == n
    ensures forall a :: 0 <= a < |row| ==> row[a] == (i, SecondStart(i, directed) + a) && row[a].1 < k
  {
    if n == 0 then [] else RowPrefix(k, i, directed, n - 1) + [(i, SecondStart(i, directed) + n - 1)]
  }

  /** The pairs visited with cluster_1 = i, in order. */
  function Row(k: nat, i: nat, directed: bool): (row: seq<ClusterPair>)
    requires i < k
    ensures forall a :: 0 <= a < |row| ==> row[a].0 == i && row[a].1 < k
  {
    RowPrefix(k, i, directed, k - SecondStart(i, directed))
  }

  /** The pairs visited for the first `rows` values of cluster_1. */
  function PairsBefore(k: nat, directed: bool, rows: nat): (pairs: seq<ClusterPair>)
    requires rows <= k
    ensures forall a :: 0 <= a < |pairs| ==> pairs[a].0 < rows && pairs[a].1 < k
  {
    if rows == 0 then [] else PairsBefore(k, directed, rows - 1) + Row(k, rows - 1, directed)
  }

  /** Every cluster pair the drivers visit, in visiting order. */
  function PairOrder(k: nat, directed: bool): (pairs: seq<ClusterPair>)
    ensures forall a :: 0 <= a < |pairs| ==> pairs[a].0 < k && pairs[a].1 < k
  {
    PairsBefore(k, directed, k)
  }

  /** Every pair names two of the k clusters. */
  predicate PairsIn(pairs: seq<ClusterPair>, k: nat) {
    forall b :: 0 <= b < |pairs| ==> pairs[b].0 < k && pairs[b].1 < k
  }

  lemma PairsInAppend(pairs: seq<ClusterPair>, pairs': seq<ClusterPair>, k: nat)
    requires PairsIn(pairs, k) && PairsIn(pairs', k)
    ensures PairsIn(pairs + pairs', k)
  {
    forall b | 0 <= b < |pairs + pairs'|
      ensures (pairs + pairs')[b].0 < k && (pairs + pairs')[b].1 < k
    {
      if b >= |pairs| {
        assert (pairs + pairs')[b] == pairs'[b - |pairs|];
      }
    }
  }

  lemma RowPrefixSnoc(k: nat, i: nat, directed: bool, n: nat)
    requires i < k && SecondStart(i, directed) + n < k
    ensures RowPrefix(k, i, directed, n + 1) == RowPrefix(k, i, directed, n) + [(i, SecondStart(i, directed) + n)]
  {
  }

  lemma {:induction false} PairsBeforeVisits(k: nat, directed: bool, rows: nat, i: nat, j: nat)
    requires rows <= k
    ensures (i, j) in PairsBefore(k, directed, rows) <==> i < rows && j < k && (directed || i <= j)
  {
    if rows > 0 {
      PairsBeforeVisits(k, directed, rows - 1, i, j);
      var row := Row(k, rows - 1, directed);
      if i == rows - 1 && j < k && (directed || i <= j) {
        assert row[j - SecondStart(i, directed)] == (i, j);
      }
    }
  }

  /** Undirected: exactly the pairs with cluster_1 <= cluster_2; directed: all k*k ordered pairs. */
  lemma PairOrderVisits(k: nat, directed: bool, i: nat, j: nat)
    ensures (i, j) in PairOrder(k, directed) <==> i < k && j < k && (directed || i <= j)
  {
    PairsBeforeVisits(k, directed, k, i, j);
  }

  lemma {:induction false} PairsBeforeIncreasing(k: nat, directed: bool, rows: nat)
    requires rows <= k
    ensures forall a, b :: 0 <= a < b < |PairsBefore(k, directed, rows)| ==>
      LexLess(PairsBefore(k, directed, rows)[a], PairsBefore(k, directed, rows)[b])
  {
    if rows > 0 {
      PairsBeforeIncreasing(k, directed, rows - 1);
    }
  }

  /** Each pair is visited once, in lexicographic order of (cluster_1, cluster_2). */
  lemma PairOrderIncreasing(k: nat, directed: bool)
    ensures forall a, b :: 0 <= a < b < |PairOrder(k, directed)| ==> LexLess(PairOrder(k, directed)[a], PairOrder(k, directed)[b])
  {
    PairsBeforeIncreasing(k, directed, k);
  }

  // ---------------------------------------------------------------------
  // Parameters of the symmetric stochastic block model (ssbm_adjmat)
  // ---------------------------------------------------------------------

  /** The probability matrix is k x k for k clusters. */
  predicate WellShaped<P>(sizes: seq<nat>, probs: seq<seq<P>>) {
    |probs| == |sizes| && forall i :: 0 <= i < |probs| ==> |probs[i]| == |sizes|
  }

  /** Cluster sizes and probability matrix; P stands for a probability, which the model never inspects. */
  datatype SymmetricParams<P> = SymmetricParams(clusterSizes: seq<nat>, probMatrix: seq<seq<P>>)

  lemma {:induction false} OffsetOfEqualSizes(sizes: seq<nat>, s: nat, i: nat)
    requires i <= |sizes|
    requires forall c :: 0 <= c < |sizes| ==> sizes[c] == s
    ensures Offset(sizes, i) == i * s
  {
    if i > 0 {
      OffsetOfEqualSizes(sizes, s, i - 1);
    }
  }

  /**
   * k clusters of floor(n/k) vertices each, and a k x k matrix with p on the
   * diagonal and q elsewhere. k = 0 is the source's division by zero. The
   * n mod k remainder vertices are not part of the graph.
   */
  method SymmetricParameters<P>(n: nat, k: nat, p: P, q: P) returns (r: Option<SymmetricParams<P>>)
    ensures r.None? <==> k == 0
    ensures r.Some? ==>
      var sizes := r.value.clusterSizes;
      && |sizes| == k
      && (forall c :: 0 <= c < k ==> sizes[c] == n / k)
      && Total(sizes) <= n < Total(sizes) + k
    ensures r.Some? ==>
      var probs := r.value.probMatrix;
      && |probs| == k
      && (forall i :: 0 <= i < k ==> |probs[i]| == k)
      && (forall i, j :: 0 <= i < k && 0 <= j < k ==> probs[i][j] == if i == j then p else q)
  {
    if k == 0 {
      return None;
    }
    var sizes := seq(k, _ => n / k);
    var probs: seq<seq<P>> := [];
    var rowNum := 0;
    while rowNum < k
      invariant rowNum <= k && |probs| == rowNum
      invariant forall i :: 0 <= i < rowNum ==> |probs[i]| == k
      invariant forall i, j :: 0 <= i < rowNum && 0 <= j < k ==> probs[i][j] == if i == j then p else q
    {
      var newRow := seq(k, _ => q);
      newRow := newRow[rowNum := p];
      probs := probs + [newRow];
      rowNum := rowNum + 1;
    }
    OffsetOfEqualSizes(sizes, n / k, k);
    assert k * (n / k) <= n < k * (n / k) + k;
    r := Some(SymmetricParams(sizes, probs));
  }
}
