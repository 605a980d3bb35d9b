/**
 * The edge generator of stochastic_block_model.py: for every visited cluster
 * pair, draw a binomial number of edges and pick that many distinct local
 * pairs by rejection against a per-pair set of pairs already added.
 *
 * The random sources are oracles: `binomial(cluster_1, cluster_2, trials, prob)`
 * is the count drawn for that pair, and each rejection loop is represented by
 * the draw it finally accepts, chosen nondeterministically among the draws
 * that pass its exit test.
 */
module StochasticBlockModel {
  import opened EdgeIndex
  import opened Clusters
  import opened Adjacency

  // ---------------------------------------------------------------------
  // Drawing the local pairs of one cluster pair
  // ---------------------------------------------------------------------

  /**
   * What one pass of the rejection loop can produce: u from cluster_1, v from
   * cluster_2, redrawn while v == u inside one cluster without self-loops.
   */
  predicate Drawable(c1Size: nat, c2Size: nat, sameCluster: bool, selfLoops: bool, p: LocalPair) {
    p.0 < c1Size && p.1 < c2Size && (sameCluster && !selfLoops ==> p.0 != p.1)
  }

  /** The drawable pairs are exactly the candidates of the directed numbering. */
  lemma DrawableIsDirectedCandidate(c1Size: nat, c2Size: nat, sameCluster: bool, selfLoops: bool, p: LocalPair)
    requires sameCluster ==> c1Size == c2Size
    ensures Drawable(c1Size, c2Size, sameCluster, selfLoops, p) <==> IsCandidate(c1Size, c2Size, sameCluster, selfLoops, true, p)
  {
  }

  /** There are at least as many drawable pairs as candidates of either direction. */
  lemma CountAtMostDirected(c1Size: nat, c2Size: nat, sameCluster: bool, selfLoops: bool, directed: bool)
    ensures NumPosEdges(c1Size, c2Size, sameCluster, selfLoops, directed) <= NumPosEdges(c1Size, c2Size, sameCluster, selfLoops, true)
  {
    NumPosEdgesClosedForm(c1Size, c2Size, sameCluster, selfLoops, directed);
    NumPosEdgesClosedForm(c1Size, c2Size, sameCluster, selfLoops, true);
    var n: int := c1Size;
    assert n * (n + 1) <= 2 * (n * n) by {
      assert 2 * (n * n) - n * (n + 1) == n * (n - 1);
    }
  }

  /**
   * The first m pairs of the directed numbering, as a set: m distinct
   * candidates, since decoding is inverted by encoding.
   */
  function Candidates(c1Size: nat, c2Size: nat, sameCluster: bool, selfLoops: bool, m: nat): (cs: set<LocalPair>)
    requires sameCluster ==> c1Size == c2Size
    requires m <= NumPosEdges(c1Size, c2Size, sameCluster, selfLoops, true)
    ensures |cs| == m
    ensures forall p :: p in cs ==>
      IsCandidate(c1Size, c2Size, sameCluster, selfLoops, true, p) && Encode(c1Size, c2Size, sameCluster, selfLoops, true, p) < m
  {
    if m == 0 then {}
    else
      var p := Decode(m - 1, c1Size, c2Size, sameCluster, selfLoops, true);
      DecodeIsCandidate(m - 1, c1Size, c2Size, sameCluster, selfLoops, true);
      Candidates(c1Size, c2Size, sameCluster, selfLoops, m - 1) + {p}
  }

  lemma SubsetNoLarger<T>(a: set<T>, b: set<T>)
    ensures a <= b ==> |a| <= |b|
  {
    if a <= b {
      assert b == a + (b - a);
    }
  }

  /**
   * While fewer pairs have been added than there are candidates, some
   * drawable pair has not been added yet: the rejection loop has something
   * to accept.
   */
  lemma FreshDrawExists(c1Size: nat, c2Size: nat, sameCluster: bool, selfLoops: bool, edgesAdded: set<LocalPair>)
    requires sameCluster ==> c1Size == c2Size
    requires |edgesAdded| < NumPosEdges(c1Size, c2Size, sameCluster, selfLoops, true)
    ensures exists p :: Drawable(c1Size, c2Size, sameCluster, selfLoops, p) && p !in edgesAdded
  {
    var cs := Candidates(c1Size, c2Size, sameCluster, selfLoops, NumPosEdges(c1Size, c2Size, sameCluster, selfLoops, true));
    SubsetNoLarger(cs, edgesAdded);
    assert !(cs <= edgesAdded);
    var p :| p in cs && p !in edgesAdded;
    DrawableIsDirectedCandidate(c1Size, c2Size, sameCluster, selfLoops, p);
  }

  /** One pass of the `while True` rejection loop: the pair it accepts is drawable and not yet added. */
  method DrawFresh(c1Size: nat, c2Size: nat, sameCluster: bool, selfLoops: bool, directed: bool, edgesAdded: set<LocalPair>)
    returns (p: LocalPair)
    requires sameCluster ==> c1Size == c2Size
    requires |edgesAdded| < NumPosEdges(c1Size, c2Size, sameCluster, selfLoops, directed)
    ensures Drawable(c1Size, c2Size, sameCluster, selfLoops, p)
    ensures p !in edgesAdded
  {
    CountAtMostDirected(c1Size, c2Size, sameCluster, selfLoops, directed);
    FreshDrawExists(c1Size, c2Size, sameCluster, selfLoops, edgesAdded);
    p :| Drawable(c1Size, c2Size, sameCluster, selfLoops, p) && p !in edgesAdded;
  }

  /** numEdges distinct drawable local pairs. */
  predicate SampledBlock(locals: seq<LocalPair>, c1Size: nat, c2Size: nat, sameCluster: bool, selfLoops: bool, numEdges: nat) {
    && |locals| == numEdges
    && (forall t :: 0 <= t < |locals| ==> Drawable(c1Size, c2Size, sameCluster, selfLoops, locals[t]))
    && (forall s, t :: 0 <= s < t < |locals| ==> locals[s] != locals[t])
  }

  /**
   * The `for i in range(num_edges)` loop of one cluster pair: each accepted
   * pair is absent from edges_added, then added, so edges_added grows by one
   * per edge and no local pair is produced twice.
   */
  method SamplePairEdges(c1Size: nat, c2Size: nat, sameCluster: bool, selfLoops: bool, directed: bool, numEdges: nat)
    returns (locals: seq<LocalPair>)
    requires sameCluster ==> c1Size == c2Size
    requires numEdges <= NumPosEdges(c1Size, c2Size, sameCluster, selfLoops, directed)
    ensures |locals| == numEdges
    ensures forall t :: 0 <= t < |locals| ==> Drawable(c1Size, c2Size, sameCluster, selfLoops, locals[t])
    ensures forall s, t :: 0 <= s < t < |locals| ==> locals[s] != locals[t]
  {
    var edgesAdded: set<LocalPair> := {};
    locals := [];
    for i := 0 to numEdges
      invariant |locals| == i
      invariant |edgesAdded| == i
      invariant forall p :: p in edgesAdded <==> p in locals
      invariant forall t :: 0 <= t < i ==> Drawable(c1Size, c2Size, sameCluster, selfLoops, locals[t])
      invariant forall s, t :: 0 <= s < t < i ==> locals[s] != locals[t]
    {
      var p := DrawFresh(c1Size, c2Size, sameCluster, selfLoops, directed, edgesAdded);
      edgesAdded := edgesAdded + {p};
      locals := locals + [p];
    }
  }

  /**
   * The seen-set holds ordered pairs, so inside one cluster of an undirected
   * graph (0, 1) and (1, 0) may both be accepted: two draws of the count,
   * yet after mirroring they set the entries of one single edge.
   */
  lemma UndirectedSeenSetAdmitsMirrorPair()
    ensures 2 <= NumPosEdges(3, 3, true, false, false)
    ensures SampledBlock([(0, 1), (1, 0)], 3, 3, true, false, 2)
    ensures Entries(Globalize([(0, 1), (1, 0)], 0, 0), false) == Entries([(0, 1)], false)
  {
    assert Globalize([(0, 1), (1, 0)], 0, 0) == [(0, 1), (1, 0)];
    assert [(0, 1), (1, 0)][..1] == [(0, 1)];
  }

  // ---------------------------------------------------------------------
  // Counts per cluster pair
  // ---------------------------------------------------------------------

  /** The binomial oracle never draws more successes than trials. */
  ghost predicate BinomialBounded<P(!new)>(binomial: (nat, nat, nat, P) -> nat) {
    forall i, j, trials, prob :: binomial(i, j, trials, prob) <= trials
  }

  /**
   * _get_number_of_edges: a binomial draw over the possible edges of the pair.
   * When the draw never exceeds its trials, neither does the count, so the
   * pair's sampling loop can always finish.
   */
  function NumberOfEdges<P(!new)>(binomial: (nat, nat, nat, P) -> nat, i: nat, j: nat, c1Size: nat, c2Size: nat,
                                  prob: P, selfLoops: bool, directed: bool): (count: nat)
    ensures BinomialBounded(binomial) ==> count <= NumPosEdges(c1Size, c2Size, i == j, selfLoops, directed)
  {
    binomial(i, j, NumPosEdges(c1Size, c2Size, i == j, selfLoops, directed), prob)
  }

  // ---------------------------------------------------------------------
  // The generator _generate_sbm_edges
  // ---------------------------------------------------------------------

  /** The global edges yielded for one cluster pair: each local pair shifted by the clusters' base indices. */
  function Globalize(locals: seq<LocalPair>, base1: nat, base2: nat): (edges: seq<Edge>)
    ensures |edges| == |locals|
    ensures forall t :: 0 <= t < |locals| ==> edges[t] == (base1 + locals[t].0, base2 + locals[t].1)
  {
    seq(|locals|, t requires 0 <= t < |locals| => (base1 + locals[t].0, base2 + locals[t].1))
  }

  /**
   * Shifting by the clusters' base indices puts every local pair of the
   * sizes[i] x sizes[j] block into clusters i and j of the graph, below
   * its vertex count.
   */
  lemma {:induction false} GlobalizeInClusters(sizes: seq<nat>, i: nat, j: nat, locals: seq<LocalPair>)
    requires i < |sizes| && j < |sizes|
    requires forall t :: 0 <= t < |locals| ==> locals[t].0 < sizes[i] && locals[t].1 < sizes[j]
    ensures forall e :: e in Globalize(locals, Offset(sizes, i), Offset(sizes, j)) ==>
      InCluster(sizes, e.0, i) && InCluster(sizes, e.1, j) && InBounds(e, Total(sizes))
  {
    var edges := Globalize(locals, Offset(sizes, i), Offset(sizes, j));
    forall e | e in edges
      ensures InCluster(sizes, e.0, i) && InCluster(sizes, e.1, j) && InBounds(e, Total(sizes))
    {
      var t :| 0 <= t < |edges| && edges[t] == e;
      GlobalIndexInRange(sizes, i, locals[t].0);
      GlobalIndexInRange(sizes, j, locals[t].1);
    }
  }

  /** The shift is one-to-one: the yielded edges repeat exactly when the local pairs do. */
  lemma GlobalizeKeepsDistinct(locals: seq<LocalPair>, base1: nat, base2: nat)
    ensures NoRepeats(Globalize(locals, base1, base2)) <==> NoRepeats(locals)
  {
  }

  /** Everything yielded for a sequence of visited pairs, given the local pairs picked for each. */
  function Emitted(sizes: seq<nat>, pairs: seq<ClusterPair>, picks: seq<seq<LocalPair>>): seq<Edge>
    requires |picks| == |pairs| && PairsIn(pairs, |sizes|)
  {
    if pairs == [] then []
    else
      var last := |pairs| - 1;
      Emitted(sizes, pairs[..last], picks[..last])
        + Globalize(picks[last], Offset(sizes, pairs[last].0), Offset(sizes, pairs[last].1))
  }

  /** The local pairs picked for cluster pair (i, j): as many as the binomial draw, distinct and drawable. */
  predicate PairSampled<P(!new)>(sizes: seq<nat>, probs: seq<seq<P>>, binomial: (nat, nat, nat, P) -> nat,
                           selfLoops: bool, directed: bool, pair: ClusterPair, locals: seq<LocalPair>) {
    var (i, j) := pair;
    && i < |sizes| && j < |sizes| && i < |probs| && j < |probs[i]|
    && SampledBlock(locals, sizes[i], sizes[j], i == j, selfLoops,
                    NumberOfEdges(binomial, i, j, sizes[i], sizes[j], probs[i][j], selfLoops, directed))
  }

  /** Every visited pair was sampled into the picks at its position. */
  predicate AllSampled<P(!new)>(sizes: seq<nat>, probs: seq<seq<P>>, binomial: (nat, nat, nat, P) -> nat,
                          selfLoops: bool, directed: bool, pairs: seq<ClusterPair>, picks: seq<seq<LocalPair>>) {
    && |picks| == |pairs|
    && (pairs != [] ==>
          && AllSampled(sizes, probs, binomial, selfLoops, directed, pairs[..|pairs| - 1], picks[..|pairs| - 1])
          && PairSampled(sizes, probs, binomial, selfLoops, directed, pairs[|pairs| - 1], picks[|pairs| - 1]))
  }

  lemma {:induction false} AllSampledAt<P(!new)>(sizes: seq<nat>, probs: seq<seq<P>>, binomial: (nat, nat, nat, P) -> nat,
                                           selfLoops: bool, directed: bool, pairs: seq<ClusterPair>, picks: seq<seq<LocalPair>>, b: nat)
    requires AllSampled(sizes, probs, binomial, selfLoops, directed, pairs, picks)
    requires b < |pairs|
    ensures PairSampled(sizes, probs, binomial, selfLoops, directed, pairs[b], picks[b])
  {
    var last := |pairs| - 1;
    if b < last {
      AllSampledAt(sizes, probs, binomial, selfLoops, directed, pairs[..last], picks[..last], b);
      assert pairs[..last][b] == pairs[b] && picks[..last][b] == picks[b];
    }
  }

  lemma AllSampledSnoc<P(!new)>(sizes: seq<nat>, probs: seq<seq<P>>, binomial: (nat, nat, nat, P) -> nat,
                          selfLoops: bool, directed: bool, pairs: seq<ClusterPair>, picks: seq<seq<LocalPair>>,
                          pair: ClusterPair, locals: seq<LocalPair>)
    requires AllSampled(sizes, probs, binomial, selfLoops, directed, pairs, picks)
    requires PairSampled(sizes, probs, binomial, selfLoops, directed, pair, locals)
    ensures AllSampled(sizes, probs, binomial, selfLoops, directed, pairs + [pair], picks + [locals])
  {
    assert (pairs + [pair])[..|pairs|] == pairs;
    assert (picks + [locals])[..|pairs|] == picks;
  }

  lemma EmittedSnoc(sizes: seq<nat>, pairs: seq<ClusterPair>, picks: seq<seq<LocalPair>>, pair: ClusterPair, locals: seq<LocalPair>)
    requires |picks| == |pairs| && PairsIn(pairs, |sizes|) && pair.0 < |sizes| && pair.1 < |sizes|
    ensures PairsIn(pairs + [pair], |sizes|)
    ensures Emitted(sizes, pairs + [pair], picks + [locals])
      == Emitted(sizes, pairs, picks) + Globalize(locals, Offset(sizes, pair.0), Offset(sizes, pair.1))
  {
    PairsInAppend(pairs, [pair], |sizes|);
    var both, bothPicks := pairs + [pair], picks + [locals];
    assert both[..|pairs|] == pairs && bothPicks[..|pairs|] == picks;
    assert both[|pairs|] == pair && bothPicks[|pairs|] == locals;
  }

  lemma {:induction false} EmittedAppend(sizes: seq<nat>, pairs: seq<ClusterPair>, picks: seq<seq<LocalPair>>,
                                         pairs': seq<ClusterPair>, picks': seq<seq<LocalPair>>)
    requires |picks| == |pairs| && PairsIn(pairs, |sizes|)
    requires |picks'| == |pairs'| && PairsIn(pairs', |sizes|)
    ensures PairsIn(pairs + pairs', |sizes|)
    ensures Emitted(sizes, pairs + pairs', picks + picks') == Emitted(sizes, pairs, picks) + Emitted(sizes, pairs', picks')
  {
    PairsInAppend(pairs, pairs', |sizes|);
    if pairs' == [] {
      assert pairs + pairs' == pairs && picks + picks' == picks;
    } else {
      var last := |pairs'| - 1;
      var both, bothPicks := pairs + pairs', picks + picks';
      var n := |both| - 1;
      assert both[..n] == pairs + pairs'[..last];
      assert bothPicks[..n] == picks + picks'[..last];
      assert both[n] == pairs'[last] && bothPicks[n] == picks'[last];
      var block := Globalize(picks'[last], Offset(sizes, pairs'[last].0), Offset(sizes, pairs'[last].1));
      EmittedAppend(sizes, pairs, picks, pairs'[..last], picks'[..last]);
      calc {
        Emitted(sizes, both, bothPicks);
        Emitted(sizes, pairs + pairs'[..last], picks + picks'[..last]) + block;
        Emitted(sizes, pairs, picks) + Emitted(sizes, pairs'[..last], picks'[..last]) + block;
        Emitted(sizes, pairs, picks) + Emitted(sizes, pairs', picks');
      }
    }
  }

  lemma {:induction false} AllSampledAppend<P(!new)>(sizes: seq<nat>, probs: seq<seq<P>>, binomial: (nat, nat, nat, P) -> nat,
                                               selfLoops: bool, directed: bool, pairs: seq<ClusterPair>, picks: seq<seq<LocalPair>>,
                                               pairs': seq<ClusterPair>, picks': seq<seq<LocalPair>>)
    requires AllSampled(sizes, probs, binomial, selfLoops, directed, pairs, picks)
    requires AllSampled(sizes, probs, binomial, selfLoops, directed, pairs', picks')
    ensures AllSampled(sizes, probs, binomial, selfLoops, directed, pairs + pairs', picks + picks')
  {
    if pairs' == [] {
      assert pairs + pairs' == pairs && picks + picks' == picks;
    } else {
      var last := |pairs'| - 1;
      AllSampledAppend(sizes, probs, binomial, selfLoops, directed, pairs, picks, pairs'[..last], picks'[..last]);
      assert (pairs + pairs')[..|pairs| + last] == pairs + pairs'[..last];
      assert (picks + picks')[..|pairs| + last] == picks + picks'[..last];
    }
  }

  /** Sampling pair (cluster1, cluster2) extends the row's sampled prefix by one pair. */
  lemma RowStepSampled<P(!new)>(sizes: seq<nat>, probs: seq<seq<P>>, binomial: (nat, nat, nat, P) -> nat,
                          selfLoops: bool, directed: bool, cluster1: nat, cluster2: nat, n: nat,
                          picks: seq<seq<LocalPair>>, locals: seq<LocalPair>)
    requires cluster1 < |sizes| && cluster2 < |sizes| && cluster2 == SecondStart(cluster1, directed) + n
    requires AllSampled(sizes, probs, binomial, selfLoops, directed, RowPrefix(|sizes|, cluster1, directed, n), picks)
    requires PairSampled(sizes, probs, binomial, selfLoops, directed, (cluster1, cluster2), locals)
    ensures AllSampled(sizes, probs, binomial, selfLoops, directed, RowPrefix(|sizes|, cluster1, directed, n + 1), picks + [locals])
  {
    var row := RowPrefix(|sizes|, cluster1, directed, n);
    var pair := (cluster1, SecondStart(cluster1, directed) + n);
    RowPrefixSnoc(|sizes|, cluster1, directed, n);
    AllSampledSnoc(sizes, probs, binomial, selfLoops, directed, row, picks, pair, locals);
  }

  /** ... and extends what the row has yielded by that pair's block, shifted by the two base indices. */
  lemma RowStepEmitted(sizes: seq<nat>, cluster1: nat, cluster2: nat, n: nat, directed: bool, c1Base: nat, c2Base: nat,
                       edges: seq<Edge>, picks: seq<seq<LocalPair>>, locals: seq<LocalPair>)
    requires cluster1 < |sizes| && cluster2 < |sizes| && cluster2 == SecondStart(cluster1, directed) + n
    requires c1Base == Offset(sizes, cluster1) && c2Base == Offset(sizes, cluster2)
    requires |picks| == n
    requires edges == Emitted(sizes, RowPrefix(|sizes|, cluster1, directed, n), picks)
    ensures edges + Globalize(locals, c1Base, c2Base) == Emitted(sizes, RowPrefix(|sizes|, cluster1, directed, n + 1), picks + [locals])
  {
    var row := RowPrefix(|sizes|, cluster1, directed, n);
    RowPrefixSnoc(|sizes|, cluster1, directed, n);
    assert row + [(cluster1, cluster2)] == RowPrefix(|sizes|, cluster1, directed, n + 1);
    EmittedSnoc(sizes, row, picks, (cluster1, cluster2), locals);
  }

  /** The first n pairs of cluster1's row have been visited, with the given yields and draws. */
  ghost predicate RowSoFar<P(!new)>(sizes: seq<nat>, probs: seq<seq<P>>, binomial: (nat, nat, nat, P) -> nat,
                                    selfLoops: bool, directed: bool, cluster1: nat, n: nat,
                                    edges: seq<Edge>, picks: seq<seq<LocalPair>>)
    requires cluster1 < |sizes| && SecondStart(cluster1, directed) + n <= |sizes|
  {
    && AllSampled(sizes, probs, binomial, selfLoops, directed, RowPrefix(|sizes|, cluster1, directed, n), picks)
    && edges == Emitted(sizes, RowPrefix(|sizes|, cluster1, directed, n), picks)
  }

  /**
   * One visit of cluster pair (cluster1, cluster2), the n-th of cluster1's
   * row: draw the binomial count, pick that many distinct local pairs and
   * yield them shifted by c1_base_index and c2_base_index; then advance
   * c2_base_index by cluster_2's size.
   */
  method VisitPair<P(!new)>(sizes: seq<nat>, probs: seq<seq<P>>, binomial: (nat, nat, nat, P) -> nat,
                            directed: bool, selfLoops: bool, cluster1: nat, cluster2: nat, ghost n: nat,
                            c1Base: nat, c2Base: nat, edges: seq<Edge>, ghost picks: seq<seq<LocalPair>>)
    returns (c2Base': nat, edges': seq<Edge>, ghost picks': seq<seq<LocalPair>>)
    requires WellShaped(sizes, probs) && BinomialBounded(binomial)
    requires cluster1 < |sizes| && cluster2 < |sizes| && cluster2 == SecondStart(cluster1, directed) + n
    requires c1Base == Offset(sizes, cluster1) && c2Base == Offset(sizes, cluster2)
    requires RowSoFar(sizes, probs, binomial, selfLoops, directed, cluster1, n, edges, picks)
    ensures RowSoFar(sizes, probs, binomial, selfLoops, directed, cluster1, n + 1, edges', picks')
    ensures c2Base' == Offset(sizes, cluster2 + 1)
  {
    var numEdges := NumberOfEdges(binomial, cluster1, cluster2, sizes[cluster1], sizes[cluster2],
                                  probs[cluster1][cluster2], selfLoops, directed);
    var locals := SamplePairEdges(sizes[cluster1], sizes[cluster2], cluster1 == cluster2, selfLoops, directed, numEdges);
    assert PairSampled(sizes, probs, binomial, selfLoops, directed, (cluster1, cluster2), locals);
    RowStepSampled(sizes, probs, binomial, selfLoops, directed, cluster1, cluster2, n, picks, locals);
    RowStepEmitted(sizes, cluster1, cluster2, n, directed, c1Base, c2Base, edges, picks, locals);
    edges' := edges + Globalize(locals, c1Base, c2Base);
    picks' := picks + [locals];
    c2Base' := c2Base + sizes[cluster2];
    assert Offset(sizes, cluster2 + 1) == Offset(sizes, cluster2) + sizes[cluster2];
  }

  /**
   * The first cluster_2 of a row, 0 when directed and cluster_1 otherwise,
   * and its c2_base_index, the first vertex of that cluster.
   */
  method StartRow<P(!new)>(sizes: seq<nat>, probs: seq<seq<P>>, binomial: (nat, nat, nat, P) -> nat,
                           directed: bool, selfLoops: bool, cluster1: nat, c1Base: nat)
    returns (cluster2: nat, c2Base: nat)
    requires cluster1 < |sizes| && c1Base == Offset(sizes, cluster1)
    ensures cluster2 == SecondStart(cluster1, directed) && c2Base == Offset(sizes, cluster2)
    ensures RowSoFar(sizes, probs, binomial, selfLoops, directed, cluster1, 0, [], [])
  {
    c2Base := c1Base;
    cluster2 := cluster1;
    if directed {
      cluster2 := 0;
      c2Base := 0;
    }
  }

  lemma RowFinished<P(!new)>(sizes: seq<nat>, probs: seq<seq<P>>, binomial: (nat, nat, nat, P) -> nat,
                             selfLoops: bool, directed: bool, cluster1: nat, n: nat,
                             edges: seq<Edge>, picks: seq<seq<LocalPair>>)
    requires cluster1 < |sizes| && SecondStart(cluster1, directed) + n == |sizes|
    requires RowSoFar(sizes, probs, binomial, selfLoops, directed, cluster1, n, edges, picks)
    ensures AllSampled(sizes, probs, binomial, selfLoops, directed, Row(|sizes|, cluster1, directed), picks)
    ensures edges == Emitted(sizes, Row(|sizes|, cluster1, directed), picks)
  {
    assert RowPrefix(|sizes|, cluster1, directed, n) == Row(|sizes|, cluster1, directed);
  }

  /**
   * The inner loop of _generate_sbm_edges for one cluster_1: cluster_2 runs
   * from 0 (directed) or cluster_1 (undirected) to the last cluster, and
   * c2_base_index starts at the matching offset and grows by each cluster's size.
   */
  method GenerateRow<P(!new)>(sizes: seq<nat>, probs: seq<seq<P>>, binomial: (nat, nat, nat, P) -> nat,
                              directed: bool, selfLoops: bool, cluster1: nat, c1Base: nat)
    returns (edges: seq<Edge>, ghost picks: seq<seq<LocalPair>>)
    requires WellShaped(sizes, probs) && BinomialBounded(binomial)
    requires cluster1 < |sizes| && c1Base == Offset(sizes, cluster1)
    ensures AllSampled(sizes, probs, binomial, selfLoops, directed, Row(|sizes|, cluster1, directed), picks)
    ensures edges == Emitted(sizes, Row(|sizes|, cluster1, directed), picks)
  {
    var cluster2, c2Base := StartRow(sizes, probs, binomial, directed, selfLoops, cluster1, c1Base);
    edges := [];
    picks := [];
    ghost var n := 0;
    while cluster2 < |sizes|
      invariant cluster2 <= |sizes| && cluster2 == SecondStart(cluster1, directed) + n
      invariant c2Base == Offset(sizes, cluster2)
      invariant RowSoFar(sizes, probs, binomial, selfLoops, directed, cluster1, n, edges, picks)
    {
      c2Base, edges, picks := VisitPair(sizes, probs, binomial, directed, selfLoops, cluster1, cluster2, n, c1Base, c2Base, edges, picks);
      cluster2 := cluster2 + 1;
      n := n + 1;
    }
    RowFinished(sizes, probs, binomial, selfLoops, directed, cluster1, n, edges, picks);
  }

  /** After the row of cluster1, what has been yielded is what the pairs of rows 0..cluster1 give. */
  lemma OuterStep<P(!new)>(sizes: seq<nat>, probs: seq<seq<P>>, binomial: (nat, nat, nat, P) -> nat,
                           selfLoops: bool, directed: bool, cluster1: nat, c1Base: nat,
                           edges: seq<Edge>, picks: seq<seq<LocalPair>>, rowEdges: seq<Edge>, rowPicks: seq<seq<LocalPair>>)
    requires cluster1 < |sizes| && c1Base == Offset(sizes, cluster1)
    requires AllSampled(sizes, probs, binomial, selfLoops, directed, PairsBefore(|sizes|, directed, cluster1), picks)
    requires edges == Emitted(sizes, PairsBefore(|sizes|, directed, cluster1), picks)
    requires AllSampled(sizes, probs, binomial, selfLoops, directed, Row(|sizes|, cluster1, directed), rowPicks)
    requires rowEdges == Emitted(sizes, Row(|sizes|, cluster1, directed), rowPicks)
    ensures |picks + rowPicks| == |PairsBefore(|sizes|, directed, cluster1 + 1)|
    ensures AllSampled(sizes, probs, binomial, selfLoops, directed, PairsBefore(|sizes|, directed, cluster1 + 1), picks + rowPicks)
    ensures edges + rowEdges == Emitted(sizes, PairsBefore(|sizes|, directed, cluster1 + 1), picks + rowPicks)
    ensures c1Base + sizes[cluster1] == Offset(sizes, cluster1 + 1)
  {
    var before := PairsBefore(|sizes|, directed, cluster1);
    var row := Row(|sizes|, cluster1, directed);
    var after := PairsBefore(|sizes|, directed, cluster1 + 1);
    assert after == before + row;
    assert |picks| == |before| && |rowPicks| == |row|;
    AllSampledAppend(sizes, probs, binomial, selfLoops, directed, before, picks, row, rowPicks);
    EmittedAppend(sizes, before, picks, row, rowPicks);
    assert Offset(sizes, cluster1 + 1) == c1Base + sizes[cluster1];
  }

  /**
   * _generate_sbm_edges: visit the cluster pairs in order, keep c1_base_index
   * as the running sum of cluster sizes, sample the local pairs of each
   * visited pair and yield them shifted to global indices.
   */
  method GenerateEdges<P(!new)>(sizes: seq<nat>, probs: seq<seq<P>>, binomial: (nat, nat, nat, P) -> nat,
                                directed: bool, selfLoops: bool)
    returns (edges: seq<Edge>, ghost picks: seq<seq<LocalPair>>)
    requires WellShaped(sizes, probs)
    requires BinomialBounded(binomial)
    ensures |picks| == |PairOrder(|sizes|, directed)|
    ensures AllSampled(sizes, probs, binomial, selfLoops, directed, PairOrder(|sizes|, directed), picks)
    ensures edges == Emitted(sizes, PairOrder(|sizes|, directed), picks)
    ensures forall t :: 0 <= t < |edges| ==> InBounds(edges[t], Total(sizes))
    ensures forall t :: 0 <= t < |edges| ==> selfLoops || edges[t].0 != edges[t].1
    ensures NoRepeats(edges)
  {
    var k := |sizes|;
    edges := [];
    picks := [];
    var c1Base := 0;
    var cluster1 := 0;
    RowsStart(sizes, probs, binomial, selfLoops, directed);
    while cluster1 < k
      invariant cluster1 <= k && c1Base == Offset(sizes, cluster1)
      invariant RowsSoFar(sizes, probs, binomial, selfLoops, directed, cluster1, edges, picks)
    {
      edges, picks := ScanRow(sizes, probs, binomial, directed, selfLoops, cluster1, c1Base, edges, picks);
      c1Base := c1Base + sizes[cluster1];
      cluster1 := cluster1 + 1;
    }
    RowsFinished(sizes, probs, binomial, directed, selfLoops, cluster1, edges, picks);
  }

  /** The stream and picks so far are those of the rows of clusters 0 .. rows-1. */
  ghost predicate RowsSoFar<P(!new)>(sizes: seq<nat>, probs: seq<seq<P>>, binomial: (nat, nat, nat, P) -> nat,
                               selfLoops: bool, directed: bool, rows: nat, edges: seq<Edge>, picks: seq<seq<LocalPair>>)
    requires rows <= |sizes|
  {
    && |picks| == |PairsBefore(|sizes|, directed, rows)|
    && AllSampled(sizes, probs, binomial, selfLoops, directed, PairsBefore(|sizes|, directed, rows), picks)
    && edges == Emitted(sizes, PairsBefore(|sizes|, directed, rows), picks)
  }

  lemma RowsStart<P(!new)>(sizes: seq<nat>, probs: seq<seq<P>>, binomial: (nat, nat, nat, P) -> nat, selfLoops: bool, directed: bool)
    ensures RowsSoFar(sizes, probs, binomial, selfLoops, directed, 0, [], [])
  {
  }

  /** One pass of the outer loop: the row of cluster1, appended to the stream and the picks. */
  method ScanRow<P(!new)>(sizes: seq<nat>, probs: seq<seq<P>>, binomial: (nat, nat, nat, P) -> nat,
                          directed: bool, selfLoops: bool, cluster1: nat, c1Base: nat,
                          edges: seq<Edge>, ghost picks: seq<seq<LocalPair>>)
    returns (edges': seq<Edge>, ghost picks': seq<seq<LocalPair>>)
    requires WellShaped(sizes, probs) && BinomialBounded(binomial)
    requires cluster1 < |sizes| && c1Base == Offset(sizes, cluster1)
    requires RowsSoFar(sizes, probs, binomial, selfLoops, directed, cluster1, edges, picks)
    ensures RowsSoFar(sizes, probs, binomial, selfLoops, directed, cluster1 + 1, edges', picks')
    ensures c1Base + sizes[cluster1] == Offset(sizes, cluster1 + 1)
  {
    var rowEdges, rowPicks := GenerateRow(sizes, probs, binomial, directed, selfLoops, cluster1, c1Base);
    OuterStep(sizes, probs, binomial, selfLoops, directed, cluster1, c1Base, edges, picks, rowEdges, rowPicks);
    edges' := edges + rowEdges;
    picks' := picks + rowPicks;
  }

  /** Once every row is done, the stream is Emitted over the whole visiting order, and so well formed. */
  lemma RowsFinished<P(!new)>(sizes: seq<nat>, probs: seq<seq<P>>, binomial: (nat, nat, nat, P) -> nat,
                        directed: bool, selfLoops: bool, rows: nat, edges: seq<Edge>, picks: seq<seq<LocalPair>>)
    requires rows == |sizes| && RowsSoFar(sizes, probs, binomial, selfLoops, directed, rows, edges, picks)
    ensures |picks| == |PairOrder(|sizes|, directed)|
    ensures AllSampled(sizes, probs, binomial, selfLoops, directed, PairOrder(|sizes|, directed), picks)
    ensures edges == Emitted(sizes, PairOrder(|sizes|, directed), picks)
    ensures forall t :: 0 <= t < |edges| ==> InBounds(edges[t], Total(sizes))
    ensures forall t :: 0 <= t < |edges| ==> selfLoops || edges[t].0 != edges[t].1
    ensures NoRepeats(edges)
  {
    assert PairsBefore(|sizes|, directed, rows) == PairOrder(|sizes|, directed);
    GeneratedEdgesWellFormed(sizes, probs, binomial, directed, selfLoops, picks);
  }

  // ---------------------------------------------------------------------
  // What the yielded edges satisfy
  // ---------------------------------------------------------------------

  /** u lies in some cluster i and v in some cluster j, with i <= j unless the graph is directed. */
  ghost predicate BetweenVisitedClusters(sizes: seq<nat>, e: Edge, directed: bool) {
    exists i, j :: InCluster(sizes, e.0, i) && InCluster(sizes, e.1, j) && (directed || i <= j)
  }

  /** Edge e is local pair s of visited cluster pair b, shifted by that pair's base indices. */
  predicate Origin(sizes: seq<nat>, pairs: seq<ClusterPair>, picks: seq<seq<LocalPair>>, e: Edge, b: nat, s: nat)
    requires |picks| == |pairs| && PairsIn(pairs, |sizes|)
  {
    && b < |pairs| && s < |picks[b]|
    && e == (Offset(sizes, pairs[b].0) + picks[b][s].0, Offset(sizes, pairs[b].1) + picks[b][s].1)
  }

  /** Every yielded edge is some visited pair's local pair, shifted. */
  lemma {:induction false} EmittedOrigin(sizes: seq<nat>, pairs: seq<ClusterPair>, picks: seq<seq<LocalPair>>, t: nat)
    requires |picks| == |pairs| && PairsIn(pairs, |sizes|)
    requires t < |Emitted(sizes, pairs, picks)|
    ensures exists b, s :: Origin(sizes, pairs, picks, Emitted(sizes, pairs, picks)[t], b, s)
  {
    var last := |pairs| - 1;
    var prefix := Emitted(sizes, pairs[..last], picks[..last]);
    var e := Emitted(sizes, pairs, picks)[t];
    if t < |prefix| {
      EmittedOrigin(sizes, pairs[..last], picks[..last], t);
      var b: nat, s: nat :| Origin(sizes, pairs[..last], picks[..last], prefix[t], b, s);
      assert pairs[..last][b] == pairs[b] && picks[..last][b] == picks[b];
      assert Origin(sizes, pairs, picks, e, b, s);
    } else {
      assert Origin(sizes, pairs, picks, e, last, t - |prefix|);
    }
  }

  predicate NoRepeats<T(==)>(xs: seq<T>) {
    forall s, t :: 0 <= s < t < |xs| ==> xs[s] != xs[t]
  }

  /** Every picked local pair lies inside its two clusters. */
  ghost predicate PicksInClusters(sizes: seq<nat>, pairs: seq<ClusterPair>, picks: seq<seq<LocalPair>>)
    requires |picks| == |pairs| && PairsIn(pairs, |sizes|)
  {
    forall b, s :: 0 <= b < |pairs| && 0 <= s < |picks[b]| ==>
      picks[b][s].0 < sizes[pairs[b].0] && picks[b][s].1 < sizes[pairs[b].1]
  }

  /** An edge with an origin lies in the ranges of its pair's two clusters. */
  lemma OriginInClusters(sizes: seq<nat>, pairs: seq<ClusterPair>, picks: seq<seq<LocalPair>>, e: Edge, b: nat, s: nat)
    requires |picks| == |pairs| && PairsIn(pairs, |sizes|)
    requires PicksInClusters(sizes, pairs, picks)
    requires Origin(sizes, pairs, picks, e, b, s)
    ensures InCluster(sizes, e.0, pairs[b].0) && InCluster(sizes, e.1, pairs[b].1)
  {
  }

  /** Edges coming from two different cluster pairs differ: some endpoint lies in a different cluster. */
  lemma OriginsOfDistinctPairsDiffer(sizes: seq<nat>, pairs: seq<ClusterPair>, picks: seq<seq<LocalPair>>,
                                     e: Edge, b: nat, s: nat, e': Edge, b': nat, s': nat)
    requires |picks| == |pairs| && PairsIn(pairs, |sizes|)
    requires PicksInClusters(sizes, pairs, picks)
    requires Origin(sizes, pairs, picks, e, b, s) && Origin(sizes, pairs, picks, e', b', s')
    requires pairs[b] != pairs[b']
    ensures e != e'
  {
    OriginInClusters(sizes, pairs, picks, e, b, s);
    OriginInClusters(sizes, pairs, picks, e', b', s');
    if e == e' {
      ClusterOfUnique(sizes, e.0, pairs[b].0, pairs[b'].0);
      ClusterOfUnique(sizes, e.1, pairs[b].1, pairs[b'].1);
      assert false;
    }
  }

  /** An edge yielded before the last visited pair differs from every edge of the last pair's block. */
  lemma {:induction false} PrefixMissesLastBlock(sizes: seq<nat>, pairs: seq<ClusterPair>, picks: seq<seq<LocalPair>>,
                                                 s: nat, u: nat)
    requires |picks| == |pairs| && PairsIn(pairs, |sizes|) && pairs != []
    requires PicksInClusters(sizes, pairs, picks)
    requires NoRepeats(pairs)
    requires s < |Emitted(sizes, pairs[..|pairs| - 1], picks[..|pairs| - 1])|
    requires u < |picks[|pairs| - 1]|
    ensures Emitted(sizes, pairs[..|pairs| - 1], picks[..|pairs| - 1])[s]
      != Globalize(picks[|pairs| - 1], Offset(sizes, pairs[|pairs| - 1].0), Offset(sizes, pairs[|pairs| - 1].1))[u]
  {
    var last := |pairs| - 1;
    var pairs', picks' := pairs[..last], picks[..last];
    var e := Emitted(sizes, pairs', picks')[s];
    var e' := Globalize(picks[last], Offset(sizes, pairs[last].0), Offset(sizes, pairs[last].1))[u];
    EmittedOrigin(sizes, pairs', picks', s);
    var b: nat, s': nat :| Origin(sizes, pairs', picks', e, b, s');
    assert pairs'[b] == pairs[b] && picks'[b] == picks[b];
    assert Origin(sizes, pairs, picks, e, b, s');
    assert Origin(sizes, pairs, picks, e', last, u);
    OriginsOfDistinctPairsDiffer(sizes, pairs, picks, e, b, s', e', last, u);
  }

  /** No edge is yielded twice, when the visited pairs are distinct and each pair's picks are distinct. */
  lemma {:induction false} EmittedDistinct(sizes: seq<nat>, pairs: seq<ClusterPair>, picks: seq<seq<LocalPair>>)
    requires |picks| == |pairs| && PairsIn(pairs, |sizes|)
    requires PicksInClusters(sizes, pairs, picks)
    requires NoRepeats(pairs)
    requires forall b :: 0 <= b < |pairs| ==> NoRepeats(picks[b])
    ensures NoRepeats(Emitted(sizes, pairs, picks))
  {
    if pairs != [] {
      var last := |pairs| - 1;
      var pairs', picks' := pairs[..last], picks[..last];
      assert forall b :: 0 <= b < last ==> pairs'[b] == pairs[b] && picks'[b] == picks[b];
      var prefix := Emitted(sizes, pairs', picks');
      var block := Globalize(picks[last], Offset(sizes, pairs[last].0), Offset(sizes, pairs[last].1));
      EmittedDistinct(sizes, pairs', picks');
      assert NoRepeats(picks[last]);
      var edges := Emitted(sizes, pairs, picks);
      assert edges == prefix + block;
      forall s, t | 0 <= s < t < |edges|
        ensures edges[s] != edges[t]
      {
        if s < |prefix| <= t {
          PrefixMissesLastBlock(sizes, pairs, picks, s, t - |prefix|);
        } else if |prefix| <= s {
          assert picks[last][s - |prefix|] != picks[last][t - |prefix|];
        }
      }
    }
  }

  /** What sampling every visited pair guarantees about its picks. */
  lemma SampledPicks<P(!new)>(sizes: seq<nat>, probs: seq<seq<P>>, binomial: (nat, nat, nat, P) -> nat,
                              selfLoops: bool, directed: bool, pairs: seq<ClusterPair>, picks: seq<seq<LocalPair>>)
    requires |picks| == |pairs| && PairsIn(pairs, |sizes|)
    requires AllSampled(sizes, probs, binomial, selfLoops, directed, pairs, picks)
    ensures PicksInClusters(sizes, pairs, picks)
    ensures forall b :: 0 <= b < |pairs| ==> NoRepeats(picks[b])
    ensures forall b, s :: 0 <= b < |pairs| && 0 <= s < |picks[b]| && pairs[b].0 == pairs[b].1 && !selfLoops ==>
      picks[b][s].0 != picks[b][s].1
  {
    forall b | 0 <= b < |pairs|
      ensures SampledBlock(picks[b], sizes[pairs[b].0], sizes[pairs[b].1], pairs[b].0 == pairs[b].1, selfLoops,
                           |picks[b]|)
    {
      AllSampledAt(sizes, probs, binomial, selfLoops, directed, pairs, picks, b);
    }
  }

  /** One yielded edge: inside the graph, between clusters of a visited pair, and no forbidden self-loop. */
  lemma {:induction false} EmittedEdgeWellFormed(sizes: seq<nat>, directed: bool, selfLoops: bool,
                                                 picks: seq<seq<LocalPair>>, t: nat)
    requires |picks| == |PairOrder(|sizes|, directed)|
    requires PicksInClusters(sizes, PairOrder(|sizes|, directed), picks)
    requires forall b, s :: 0 <= b < |picks| && 0 <= s < |picks[b]| && PairOrder(|sizes|, directed)[b].0 == PairOrder(|sizes|, directed)[b].1 && !selfLoops ==>
      picks[b][s].0 != picks[b][s].1
    requires t < |Emitted(sizes, PairOrder(|sizes|, directed), picks)|
    ensures var e := Emitted(sizes, PairOrder(|sizes|, directed), picks)[t];
      && InBounds(e, Total(sizes))
      && BetweenVisitedClusters(sizes, e, directed)
      && (selfLoops || e.0 != e.1)
  {
    var pairs := PairOrder(|sizes|, directed);
    var e := Emitted(sizes, pairs, picks)[t];
    EmittedOrigin(sizes, pairs, picks, t);
    var b: nat, s: nat :| Origin(sizes, pairs, picks, e, b, s);
    OriginInClusters(sizes, pairs, picks, e, b, s);
    var (i, j) := pairs[b];
    assert (i, j) in pairs;
    PairOrderVisits(|sizes|, directed, i, j);
    assert InCluster(sizes, e.0, i) && InCluster(sizes, e.1, j) && (directed || i <= j);
    ClusterRangeBefore(sizes, i, |sizes|);
    ClusterRangeBefore(sizes, j, |sizes|);
    if !selfLoops && e.0 == e.1 {
      ClusterOfUnique(sizes, e.0, i, j);
      assert false;
    }
  }

  /** The visiting order never repeats a cluster pair. */
  lemma PairOrderNoRepeats(k: nat, directed: bool)
    ensures NoRepeats(PairOrder(k, directed))
  {
    PairOrderIncreasing(k, directed);
  }

  /**
   * What the generator's output satisfies: every index below
   * sum(cluster_sizes); u in cluster_1's range and v in cluster_2's for a
   * visited pair, with cluster_1 <= cluster_2 when undirected; no self-loop
   * unless enabled; and no edge yielded twice.
   */
  lemma GeneratedEdgesWellFormed<P(!new)>(sizes: seq<nat>, probs: seq<seq<P>>, binomial: (nat, nat, nat, P) -> nat,
                                    directed: bool, selfLoops: bool, picks: seq<seq<LocalPair>>)
    requires |picks| == |PairOrder(|sizes|, directed)|
    requires AllSampled(sizes, probs, binomial, selfLoops, directed, PairOrder(|sizes|, directed), picks)
    ensures var edges := Emitted(sizes, PairOrder(|sizes|, directed), picks);
      && (forall t :: 0 <= t < |edges| ==> InBounds(edges[t], Total(sizes)))
      && (forall t :: 0 <= t < |edges| ==> BetweenVisitedClusters(sizes, edges[t], directed))
      && (forall t :: 0 <= t < |edges| ==> selfLoops || edges[t].0 != edges[t].1)
      && NoRepeats(edges)
  {
    var pairs := PairOrder(|sizes|, directed);
    var edges := Emitted(sizes, pairs, picks);
    SampledPicks(sizes, probs, binomial, selfLoops, directed, pairs, picks);
    forall t | 0 <= t < |edges|
      ensures InBounds(edges[t], Total(sizes))
      ensures BetweenVisitedClusters(sizes, edges[t], directed)
      ensures selfLoops || edges[t].0 != edges[t].1
    {
      EmittedEdgeWellFormed(sizes, directed, selfLoops, picks, t);
    }
    PairOrderNoRepeats(|sizes|, directed);
    EmittedDistinct(sizes, pairs, picks);
  }

  // ---------------------------------------------------------------------
  // The public entry points sbm_adjmat and ssbm_adjmat
  // ---------------------------------------------------------------------

  /**
   * sbm_adjmat: a sum(cluster_sizes)-square matrix whose set entries are
   * exactly the yielded edges, mirrored when undirected.
   */
  method SbmAdjMat<P(!new)>(sizes: seq<nat>, probs: seq<seq<P>>, binomial: (nat, nat, nat, P) -> nat,
                            directed: bool, selfLoops: bool)
    returns (adj: array2<bool>, edges: seq<Edge>, ghost picks: seq<seq<LocalPair>>)
    requires WellShaped(sizes, probs)
    requires BinomialBounded(binomial)
    ensures |picks| == |PairOrder(|sizes|, directed)|
    ensures AllSampled(sizes, probs, binomial, selfLoops, directed, PairOrder(|sizes|, directed), picks)
    ensures edges == Emitted(sizes, PairOrder(|sizes|, directed), picks)
    ensures fresh(adj) && adj.Length0 == Total(sizes) && adj.Length1 == Total(sizes)
    ensures forall a, b :: 0 <= a < Total(sizes) && 0 <= b < Total(sizes) ==> (adj[a, b] <==> (a, b) in Entries(edges, directed))
    ensures !directed ==> forall a, b :: 0 <= a < Total(sizes) && 0 <= b < Total(sizes) ==> adj[a, b] == adj[b, a]
    ensures !selfLoops ==> forall a :: 0 <= a < Total(sizes) ==> !adj[a, a]
  {
    edges, picks := GenerateEdges(sizes, probs, binomial, directed, selfLoops);
    GeneratedEdgesWellFormed(sizes, probs, binomial, directed, selfLoops, picks);
    var r := FillAdjacency(Total(sizes), edges, directed);
    assert r.Built?;
    adj := r.matrix;
    forall a, b | 0 <= a < Total(sizes) && 0 <= b < Total(sizes)
      ensures !directed ==> adj[a, b] == adj[b, a]
    {
      UndirectedEntriesSymmetric(edges, a, b);
    }
    forall a | 0 <= a < Total(sizes) && !selfLoops
      ensures !adj[a, a]
    {
      EntriesExactly(edges, directed, a, a);
    }
  }

  /**
   * ssbm_adjmat: the symmetric model with k clusters of floor(n/k) vertices,
   * p inside clusters and q between them, without self-loops. None when k = 0.
   */
  method SsbmAdjMat<P(!new)>(n: nat, k: nat, p: P, q: P, binomial: (nat, nat, nat, P) -> nat, directed: bool)
    returns (adj: Option<array2<bool>>)
    requires BinomialBounded(binomial)
    ensures adj.None? <==> k == 0
    ensures adj.Some? ==> fresh(adj.value)
    ensures adj.Some? ==> adj.value.Length0 == adj.value.Length1 == k * (n / k)
    ensures adj.Some? ==> forall a :: 0 <= a < k * (n / k) ==> !adj.value[a, a]
    ensures adj.Some? && !directed ==>
      forall a, b :: 0 <= a < k * (n / k) && 0 <= b < k * (n / k) ==> adj.value[a, b] == adj.value[b, a]
  {
    var params := SymmetricParameters(n, k, p, q);
    if params.None? {
      return None;
    }
    var sizes := params.value.clusterSizes;
    OffsetOfEqualSizes(sizes, n / k, k);
    var matrix, _, _ := SbmAdjMat(sizes, params.value.probMatrix, binomial, directed, false);
    return Some(matrix);
  }
}
