/**
 * The original generator of sbm/sbm.py: every vertex pair of every visited
 * cluster pair gets its own coin, random.random() < Q[cluster_1][cluster_2],
 * and a hit is yielded unless it is a self-loop that is not allowed.
 *
 * The coin is an oracle of the cluster pair, the two local indices and the
 * probability entry. Each (cluster pair, u, v) is tested at most once per
 * run, so every run of the source is described by some oracle.
 */
module NaiveSbm {
  import opened Clusters
  import opened Adjacency

  /** The test random.random() < prob for local pair (u, v) of cluster pair (i, j), as coin(i, j, u, v, prob). */
  type Coin<!P> = (nat, nat, nat, nat, P) -> bool

  /** One visited cluster pair: its two clusters, the base indices in force, and Q[cluster1][cluster2]. */
  datatype Block<P> = Block(cluster1: nat, cluster2: nat, c1Base: nat, c2Base: nat, prob: P)

  /** The coin of local pair (u, v) came up and the self-loop filter lets the shifted pair through. */
  predicate Hit<P>(coin: Coin<P>, selfLoops: bool, b: Block<P>, u: nat, v: nat) {
    coin(b.cluster1, b.cluster2, u, v, b.prob) && (b.c1Base + u != b.c2Base + v || selfLoops)
  }

  /** What local pair (u, v) of a block yields: the shifted pair on a hit, nothing otherwise. */
  function Cell<P>(coin: Coin<P>, selfLoops: bool, b: Block<P>, u: nat, v: nat): seq<Edge> {
    if Hit(coin, selfLoops, b, u, v) then [(b.c1Base + u, b.c2Base + v)] else []
  }

  /** The yields of row u of a block, for v = 0 .. n-1. */
  function RowYields<P>(coin: Coin<P>, selfLoops: bool, b: Block<P>, u: nat, n: nat): seq<Edge> {
    if n == 0 then [] else RowYields(coin, selfLoops, b, u, n - 1) + Cell(coin, selfLoops, b, u, n - 1)
  }

  /** The yields of rows u = 0 .. m-1 of a block whose second cluster has c2Size vertices. */
  function BlockYields<P>(coin: Coin<P>, selfLoops: bool, b: Block<P>, c2Size: nat, m: nat): seq<Edge> {
    if m == 0 then []
    else BlockYields(coin, selfLoops, b, c2Size, m - 1) + RowYields(coin, selfLoops, b, m - 1, c2Size)
  }

  // ---------------------------------------------------------------------
  // What one block yields
  // ---------------------------------------------------------------------

  lemma {:induction false} RowMember<P>(coin: Coin<P>, selfLoops: bool, b: Block<P>, row: nat, n: nat, u: nat, v: nat)
    ensures (b.c1Base + u, b.c2Base + v) in RowYields(coin, selfLoops, b, row, n) <==>
      u == row && v < n && Hit(coin, selfLoops, b, u, v)
  {
    if n > 0 {
      RowMember(coin, selfLoops, b, row, n - 1, u, v);
    }
  }

  /** Within a block, base + (u, v) is yielded exactly when u is a visited row, v < c2Size and (u, v) is a hit. */
  lemma {:induction false} BlockMember<P>(coin: Coin<P>, selfLoops: bool, b: Block<P>, c2Size: nat, m: nat, u: nat, v: nat)
    requires v < c2Size
    ensures (b.c1Base + u, b.c2Base + v) in BlockYields(coin, selfLoops, b, c2Size, m) <==>
      u < m && Hit(coin, selfLoops, b, u, v)
  {
    if m > 0 {
      BlockMember(coin, selfLoops, b, c2Size, m - 1, u, v);
      RowMember(coin, selfLoops, b, m - 1, c2Size, u, v);
    }
  }

  lemma {:induction false} RowShape<P>(coin: Coin<P>, selfLoops: bool, b: Block<P>, u: nat, n: nat)
    ensures forall e :: e in RowYields(coin, selfLoops, b, u, n) ==>
      e.0 == b.c1Base + u && b.c2Base <= e.1 < b.c2Base + n && (selfLoops || e.0 != e.1)
  {
    if n > 0 {
      RowShape(coin, selfLoops, b, u, n - 1);
    }
  }

  /** Every yield of a block is its bases plus a local pair of the two clusters, and passes the self-loop filter. */
  lemma {:induction false} BlockShape<P>(coin: Coin<P>, selfLoops: bool, b: Block<P>, c2Size: nat, m: nat)
    ensures forall e :: e in BlockYields(coin, selfLoops, b, c2Size, m) ==>
      && b.c1Base <= e.0 < b.c1Base + m
      && b.c2Base <= e.1 < b.c2Base + c2Size
      && (selfLoops || e.0 != e.1)
  {
    if m > 0 {
      var before := BlockYields(coin, selfLoops, b, c2Size, m - 1);
      var row := RowYields(coin, selfLoops, b, m - 1, c2Size);
      BlockShape(coin, selfLoops, b, c2Size, m - 1);
      RowShape(coin, selfLoops, b, m - 1, c2Size);
      forall e: Edge | e in before + row
        ensures b.c1Base <= e.0 < b.c1Base + m && b.c2Base <= e.1 < b.c2Base + c2Size && (selfLoops || e.0 != e.1)
      {
        assert e in before || e in row;
      }
    }
  }

  /** The body of the innermost loop: toss the coin of (u, v) and yield the shifted pair on a hit that passes the filter. */
  method ScanCell<P>(coin: Coin<P>, selfLoops: bool, b: Block<P>, u: nat, v: nat, stream: seq<Edge>) returns (stream': seq<Edge>)
    ensures stream' == stream + Cell(coin, selfLoops, b, u, v)
  {
    stream' := stream;
    if coin(b.cluster1, b.cluster2, u, v, b.prob) {
      var uIdx := b.c1Base + u;
      var vIdx := b.c2Base + v;
      if uIdx != vIdx || selfLoops {
        stream' := stream + [(uIdx, vIdx)];
      }
    }
  }

  /**
   * The two innermost loops of sbm.py for one cluster pair: u over
   * cluster_1, v over cluster_2, a coin per pair, then the self-loop filter.
   */
  method ScanBlock<P>(coin: Coin<P>, selfLoops: bool, b: Block<P>, c1Size: nat, c2Size: nat) returns (stream: seq<Edge>)
    ensures stream == BlockYields(coin, selfLoops, b, c2Size, c1Size)
  {
    stream := [];
    var u := 0;
    while u < c1Size
      invariant u <= c1Size
      invariant stream == BlockYields(coin, selfLoops, b, c2Size, u)
    {
      ghost var before := stream;
      var v := 0;
      while v < c2Size
        invariant v <= c2Size
        invariant stream == before + RowYields(coin, selfLoops, b, u, v)
      {
        stream := ScanCell(coin, selfLoops, b, u, v, stream);
        AppendAssociative(before, RowYields(coin, selfLoops, b, u, v), Cell(coin, selfLoops, b, u, v));
        v := v + 1;
      }
      u := u + 1;
    }
  }

  // ---------------------------------------------------------------------
  // The whole generator
  // ---------------------------------------------------------------------

  /**
   * The arguments of _generate_sbm_edges, with the coin oracle that stands
   * for random.random(). resetBase is false for sbm.py as written; true
   * adds the restart of c2_base_index at 0 for directed graphs that
   * stochastic_block_model.py makes.
   */
  datatype Config<!P> = Config(sizes: seq<nat>, probs: seq<seq<P>>, coin: Coin<P>, directed: bool, selfLoops: bool,
                               resetBase: bool)

  /** Directed without the restart, c2_base_index runs ahead of cluster_2's first vertex. */
  predicate Overruns<P>(cfg: Config<P>) {
    cfg.directed && !cfg.resetBase
  }

  /**
   * c2_base_index when cluster pair (i, j) is visited. It starts at
   * c1_base_index and grows by each visited cluster_2's size, so without
   * the restart a directed row runs Offset(i) ahead of cluster j's first vertex.
   */
  function SecondBase(sizes: seq<nat>, i: nat, j: nat, overruns: bool): nat
    requires i < |sizes| && j <= |sizes|
  {
    if overruns then Offset(sizes, i) + Offset(sizes, j) else Offset(sizes, j)
  }

  /** The block sbm.py scans for cluster pair (i, j). */
  function PairBlock<P>(cfg: Config<P>, pair: ClusterPair): Block<P>
    requires WellShaped(cfg.sizes, cfg.probs) && pair.0 < |cfg.sizes| && pair.1 < |cfg.sizes|
  {
    Block(pair.0, pair.1, Offset(cfg.sizes, pair.0), SecondBase(cfg.sizes, pair.0, pair.1, Overruns(cfg)),
          cfg.probs[pair.0][pair.1])
  }

  /** What the scan of cluster pair (i, j) yields. */
  function PairYields<P>(cfg: Config<P>, pair: ClusterPair): seq<Edge>
    requires WellShaped(cfg.sizes, cfg.probs) && pair.0 < |cfg.sizes| && pair.1 < |cfg.sizes|
  {
    BlockYields(cfg.coin, cfg.selfLoops, PairBlock(cfg, pair), cfg.sizes[pair.1], cfg.sizes[pair.0])
  }

  /** Everything yielded for a sequence of visited cluster pairs. */
  function YieldsOf<P>(cfg: Config<P>, pairs: seq<ClusterPair>): seq<Edge>
    requires WellShaped(cfg.sizes, cfg.probs) && PairsIn(pairs, |cfg.sizes|)
  {
    if pairs == [] then [] else YieldsOf(cfg, pairs[..|pairs| - 1]) + PairYields(cfg, pairs[|pairs| - 1])
  }

  /** The stream _generate_sbm_edges yields. */
  function NaiveEdges<P>(cfg: Config<P>): seq<Edge>
    requires WellShaped(cfg.sizes, cfg.probs)
  {
    YieldsOf(cfg, PairOrder(|cfg.sizes|, cfg.directed))
  }

  /** A plain sequence fact, stated as a lemma so that the proofs above can cite it as one step instead of re-deriving it each time. */
  lemma AppendAssociative(a: seq<Edge>, b: seq<Edge>, c: seq<Edge>)
    ensures a + b + c == a + (b + c)
  {
  }

  lemma YieldsSnoc<P>(cfg: Config<P>, pairs: seq<ClusterPair>, pair: ClusterPair)
    requires WellShaped(cfg.sizes, cfg.probs) && PairsIn(pairs, |cfg.sizes|)
    requires pair.0 < |cfg.sizes| && pair.1 < |cfg.sizes|
    ensures PairsIn(pairs + [pair], |cfg.sizes|)
    ensures YieldsOf(cfg, pairs + [pair])
      == YieldsOf(cfg, pairs) + PairYields(cfg, pair)
  {
    PairsInAppend(pairs, [pair], |cfg.sizes|);
    var both := pairs + [pair];
    assert both[..|pairs|] == pairs && both[|pairs|] == pair;
  }

  lemma {:induction false} YieldsAppend<P>(cfg: Config<P>, pairs: seq<ClusterPair>, pairs': seq<ClusterPair>)
    requires WellShaped(cfg.sizes, cfg.probs) && PairsIn(pairs, |cfg.sizes|) && PairsIn(pairs', |cfg.sizes|)
    ensures PairsIn(pairs + pairs', |cfg.sizes|)
    ensures YieldsOf(cfg, pairs + pairs') == YieldsOf(cfg, pairs) + YieldsOf(cfg, pairs')
  {
    PairsInAppend(pairs, pairs', |cfg.sizes|);
    if pairs' == [] {
      assert pairs + pairs' == pairs;
    } else {
      var last := |pairs'| - 1;
      var both := pairs + pairs';
      var n := |both| - 1;
      assert both[..n] == pairs + pairs'[..last];
      assert both[n] == pairs'[last];
      var block := PairYields(cfg, pairs'[last]);
      YieldsAppend(cfg, pairs, pairs'[..last]);
      assert YieldsOf(cfg, pairs') == YieldsOf(cfg, pairs'[..last]) + block;
      AppendAssociative(YieldsOf(cfg, pairs), YieldsOf(cfg, pairs'[..last]), block);
    }
  }

  /** The stream so far is what the first n pairs of cluster1's row yield. */
  ghost predicate RowSoFar<P>(cfg: Config<P>, cluster1: nat, n: nat, stream: seq<Edge>)
    requires WellShaped(cfg.sizes, cfg.probs) && cluster1 < |cfg.sizes| && SecondStart(cluster1, cfg.directed) + n <= |cfg.sizes|
  {
    stream == YieldsOf(cfg, RowPrefix(|cfg.sizes|, cluster1, cfg.directed, n))
  }

  /**
   * Where the cluster_2 loop of cluster1's row stands: cluster2, the n-th
   * cluster of the row, is next; c2Base is the c2_base_index in force; the
   * stream is what the first n pairs of the row yield.
   */
  ghost predicate RowState<P>(cfg: Config<P>, cluster1: nat, cluster2: nat, n: nat, c2Base: nat, stream: seq<Edge>)
    requires WellShaped(cfg.sizes, cfg.probs) && cluster1 < |cfg.sizes|
  {
    && cluster2 <= |cfg.sizes| && cluster2 == SecondStart(cluster1, cfg.directed) + n
    && c2Base == SecondBase(cfg.sizes, cluster1, cluster2, Overruns(cfg))
    && RowSoFar(cfg, cluster1, n, stream)
  }

  /** Scanning pair (cluster1, cluster2), the n-th of its row, appends that pair's yields to the row's. */
  lemma RowStep<P>(cfg: Config<P>, cluster1: nat, cluster2: nat, n: nat, stream: seq<Edge>)
    requires WellShaped(cfg.sizes, cfg.probs)
    requires cluster1 < |cfg.sizes| && cluster2 < |cfg.sizes| && cluster2 == SecondStart(cluster1, cfg.directed) + n
    requires RowSoFar(cfg, cluster1, n, stream)
    ensures RowSoFar(cfg, cluster1, n + 1, stream + PairYields(cfg, (cluster1, cluster2)))
  {
    var row := RowPrefix(|cfg.sizes|, cluster1, cfg.directed, n);
    RowPrefixSnoc(|cfg.sizes|, cluster1, cfg.directed, n);
    assert row + [(cluster1, cluster2)] == RowPrefix(|cfg.sizes|, cluster1, cfg.directed, n + 1);
    YieldsSnoc(cfg, row, (cluster1, cluster2));
  }

  /**
   * One pass of the cluster_2 loop: scan pair (cluster1, cluster2), the n-th
   * of the row, yield its hits, and advance cluster_2 and c2_base_index.
   */
  method ScanPair<P>(cfg: Config<P>, cluster1: nat, cluster2: nat, ghost n: nat, c1Base: nat, c2Base: nat, stream: seq<Edge>)
    returns (cluster2': nat, c2Base': nat, stream': seq<Edge>)
    requires WellShaped(cfg.sizes, cfg.probs)
    requires cluster1 < |cfg.sizes| && cluster2 < |cfg.sizes| && c1Base == Offset(cfg.sizes, cluster1)
    requires RowState(cfg, cluster1, cluster2, n, c2Base, stream)
    ensures cluster2' == cluster2 + 1 && RowState(cfg, cluster1, cluster2', n + 1, c2Base', stream')
  {
    var block := ScanBlock(cfg.coin, cfg.selfLoops, Block(cluster1, cluster2, c1Base, c2Base, cfg.probs[cluster1][cluster2]),
                           cfg.sizes[cluster1], cfg.sizes[cluster2]);
    PairStep(cfg, cluster1, cluster2, n, c1Base, c2Base, stream, block);
    stream' := stream + block;
    c2Base' := c2Base + cfg.sizes[cluster2];
    cluster2' := cluster2 + 1;
  }

  /** The block just scanned is the pair's yields, so the row's state moves on to the next cluster_2. */
  lemma PairStep<P>(cfg: Config<P>, cluster1: nat, cluster2: nat, n: nat, c1Base: nat, c2Base: nat,
                    stream: seq<Edge>, block: seq<Edge>)
    requires WellShaped(cfg.sizes, cfg.probs)
    requires cluster1 < |cfg.sizes| && cluster2 < |cfg.sizes| && c1Base == Offset(cfg.sizes, cluster1)
    requires RowState(cfg, cluster1, cluster2, n, c2Base, stream)
    requires block == BlockYields(cfg.coin, cfg.selfLoops, Block(cluster1, cluster2, c1Base, c2Base, cfg.probs[cluster1][cluster2]),
                                  cfg.sizes[cluster2], cfg.sizes[cluster1])
    ensures RowState(cfg, cluster1, cluster2 + 1, n + 1, c2Base + cfg.sizes[cluster2], stream + block)
  {
    assert block == PairYields(cfg, (cluster1, cluster2));
    RowStep(cfg, cluster1, cluster2, n, stream);
    assert Offset(cfg.sizes, cluster2 + 1) == Offset(cfg.sizes, cluster2) + cfg.sizes[cluster2];
  }

  lemma RowFinished<P>(cfg: Config<P>, cluster1: nat, cluster2: nat, n: nat, c2Base: nat, stream: seq<Edge>)
    requires WellShaped(cfg.sizes, cfg.probs) && cluster1 < |cfg.sizes| && cluster2 >= |cfg.sizes|
    requires RowState(cfg, cluster1, cluster2, n, c2Base, stream)
    ensures stream == YieldsOf(cfg, Row(|cfg.sizes|, cluster1, cfg.directed))
  {
    assert RowPrefix(|cfg.sizes|, cluster1, cfg.directed, n) == Row(|cfg.sizes|, cluster1, cfg.directed);
  }

  /**
   * The first cluster_2 of a row and its c2_base_index: cluster_1 and
   * c1_base_index when undirected; cluster 0 and, only with the restart,
   * index 0 when directed. Nothing of the row has been yielded yet.
   */
  method StartRow<P>(cfg: Config<P>, cluster1: nat, c1Base: nat) returns (cluster2: nat, c2Base: nat)
    requires WellShaped(cfg.sizes, cfg.probs) && cluster1 < |cfg.sizes| && c1Base == Offset(cfg.sizes, cluster1)
    ensures cluster2 == SecondStart(cluster1, cfg.directed)
    ensures c2Base == SecondBase(cfg.sizes, cluster1, cluster2, Overruns(cfg))
    ensures RowState(cfg, cluster1, cluster2, 0, c2Base, [])
  {
    c2Base := c1Base;
    cluster2 := cluster1;
    if cfg.directed {
      cluster2 := 0;
      if cfg.resetBase {
        c2Base := 0;
      }
    }
  }

  /**
   * The loop over cluster_2 for one cluster_1: all clusters when directed,
   * cluster_1 onwards otherwise, with c2_base_index starting at
   * c1_base_index (or 0 with the restart) and growing by each cluster_2's size.
   */
  method GenerateRow<P>(cfg: Config<P>, cluster1: nat, c1Base: nat) returns (stream: seq<Edge>)
    requires WellShaped(cfg.sizes, cfg.probs)
    requires cluster1 < |cfg.sizes| && c1Base == Offset(cfg.sizes, cluster1)
    ensures stream == YieldsOf(cfg, Row(|cfg.sizes|, cluster1, cfg.directed))
  {
    var cluster2, c2Base := StartRow(cfg, cluster1, c1Base);
    stream := [];
    ghost var n := 0;
    while cluster2 < |cfg.sizes|
      invariant RowState(cfg, cluster1, cluster2, n, c2Base, stream)
    {
      cluster2, c2Base, stream := ScanPair(cfg, cluster1, cluster2, n, c1Base, c2Base, stream);
      n := n + 1;
    }
    RowFinished(cfg, cluster1, cluster2, n, c2Base, stream);
  }

  /** The stream so far is what the rows of clusters 0 .. rows-1 yield. */
  ghost predicate RowsSoFar<P>(cfg: Config<P>, rows: nat, stream: seq<Edge>)
    requires WellShaped(cfg.sizes, cfg.probs) && rows <= |cfg.sizes|
  {
    stream == YieldsOf(cfg, PairsBefore(|cfg.sizes|, cfg.directed, rows))
  }

  /** After the row of cluster1, the yields are those of the pairs of rows 0 .. cluster1. */
  lemma OuterStep<P>(cfg: Config<P>, cluster1: nat, stream: seq<Edge>, rowStream: seq<Edge>)
    requires WellShaped(cfg.sizes, cfg.probs) && cluster1 < |cfg.sizes|
    requires RowsSoFar(cfg, cluster1, stream)
    requires rowStream == YieldsOf(cfg, Row(|cfg.sizes|, cluster1, cfg.directed))
    ensures RowsSoFar(cfg, cluster1 + 1, stream + rowStream)
  {
    var before := PairsBefore(|cfg.sizes|, cfg.directed, cluster1);
    var row := Row(|cfg.sizes|, cluster1, cfg.directed);
    assert PairsBefore(|cfg.sizes|, cfg.directed, cluster1 + 1) == before + row;
    YieldsAppend(cfg, before, row);
  }

  /** The row of cluster1 done, the loop state moves on to the next cluster_1. */
  lemma RowsStep<P>(cfg: Config<P>, cluster1: nat, c1Base: nat, stream: seq<Edge>, rowStream: seq<Edge>)
    requires WellShaped(cfg.sizes, cfg.probs) && cluster1 < |cfg.sizes|
    requires c1Base == Offset(cfg.sizes, cluster1) && RowsSoFar(cfg, cluster1, stream)
    requires rowStream == YieldsOf(cfg, Row(|cfg.sizes|, cluster1, cfg.directed))
    ensures c1Base + cfg.sizes[cluster1] == Offset(cfg.sizes, cluster1 + 1)
    ensures RowsSoFar(cfg, cluster1 + 1, stream + rowStream)
  {
    OuterStep(cfg, cluster1, stream, rowStream);
    assert Offset(cfg.sizes, cluster1 + 1) == Offset(cfg.sizes, cluster1) + cfg.sizes[cluster1];
  }

  lemma RowsStart<P>(cfg: Config<P>)
    requires WellShaped(cfg.sizes, cfg.probs)
    ensures RowsSoFar(cfg, 0, [])
  {
  }

  lemma RowsFinished<P>(cfg: Config<P>, rows: nat, stream: seq<Edge>)
    requires WellShaped(cfg.sizes, cfg.probs) && rows == |cfg.sizes|
    requires RowsSoFar(cfg, rows, stream)
    ensures stream == NaiveEdges(cfg)
  {
  }

  /** One pass of the outer loop: the row of cluster1, appended to the stream; then cluster_1 and c1_base_index advance. */
  method ScanRow<P>(cfg: Config<P>, cluster1: nat, c1Base: nat, stream: seq<Edge>) returns (cluster1': nat, c1Base': nat, stream': seq<Edge>)
    requires WellShaped(cfg.sizes, cfg.probs) && cluster1 < |cfg.sizes|
    requires c1Base == Offset(cfg.sizes, cluster1) && RowsSoFar(cfg, cluster1, stream)
    ensures cluster1' == cluster1 + 1 && c1Base' == Offset(cfg.sizes, cluster1') && RowsSoFar(cfg, cluster1', stream')
  {
    var rowStream := GenerateRow(cfg, cluster1, c1Base);
    RowsStep(cfg, cluster1, c1Base, stream, rowStream);
    stream' := stream + rowStream;
    c1Base' := c1Base + cfg.sizes[cluster1];
    cluster1' := cluster1 + 1;
  }

  /** _generate_sbm_edges of sbm.py: c1_base_index is the running sum of the sizes of earlier clusters. */
  method GenerateEdges<P>(cfg: Config<P>) returns (stream: seq<Edge>)
    requires WellShaped(cfg.sizes, cfg.probs)
    ensures stream == NaiveEdges(cfg)
  {
    stream := [];
    var c1Base := 0;
    var cluster1 := 0;
    RowsStart(cfg);
    while cluster1 < |cfg.sizes|
      invariant cluster1 <= |cfg.sizes| && c1Base == Offset(cfg.sizes, cluster1)
      invariant RowsSoFar(cfg, cluster1, stream)
    {
      cluster1, c1Base, stream := ScanRow(cfg, cluster1, c1Base, stream);
    }
    RowsFinished(cfg, cluster1, stream);
  }

  // ---------------------------------------------------------------------
  // What the yielded edges satisfy
  // ---------------------------------------------------------------------

  lemma {:induction false} YieldsFiltered<P>(cfg: Config<P>, pairs: seq<ClusterPair>)
    requires WellShaped(cfg.sizes, cfg.probs) && PairsIn(pairs, |cfg.sizes|)
    ensures forall e :: e in YieldsOf(cfg, pairs) ==> cfg.selfLoops || e.0 != e.1
  {
    if pairs != [] {
      var last := |pairs| - 1;
      YieldsFiltered(cfg, pairs[..last]);
      BlockShape(cfg.coin, cfg.selfLoops, PairBlock(cfg, pairs[last]), cfg.sizes[pairs[last].1], cfg.sizes[pairs[last].0]);
    }
  }

  /** sbm.py yields a self-loop only when self-loops are enabled, directed or not. */
  lemma NoForbiddenSelfLoops<P>(cfg: Config<P>)
    requires WellShaped(cfg.sizes, cfg.probs)
    ensures forall e :: e in NaiveEdges(cfg) ==> cfg.selfLoops || e.0 != e.1
  {
    YieldsFiltered(cfg, PairOrder(|cfg.sizes|, cfg.directed));
  }

  /**
   * A block whose second base index is Offset(j), the first vertex of
   * cluster j, yields only edges from cluster i to cluster j, inside the graph.
   */
  lemma ResetBlockInRange<P>(coin: Coin<P>, selfLoops: bool, sizes: seq<nat>, b: Block<P>)
    requires b.cluster1 < |sizes| && b.cluster2 < |sizes|
    requires b.c1Base == Offset(sizes, b.cluster1) && b.c2Base == Offset(sizes, b.cluster2)
    ensures forall e :: e in BlockYields(coin, selfLoops, b, sizes[b.cluster2], sizes[b.cluster1]) ==>
      && InCluster(sizes, e.0, b.cluster1)
      && InCluster(sizes, e.1, b.cluster2)
      && InBounds(e, Total(sizes))
  {
    BlockShape(coin, selfLoops, b, sizes[b.cluster2], sizes[b.cluster1]);
    ClusterRangeBefore(sizes, b.cluster1, |sizes|);
    ClusterRangeBefore(sizes, b.cluster2, |sizes|);
  }

  /** Within its own block, base + (u, v) is yielded exactly on a hit. */
  lemma OwnBlockMember<P>(cfg: Config<P>, i: nat, j: nat, u: nat, v: nat)
    requires WellShaped(cfg.sizes, cfg.probs) && !Overruns(cfg)
    requires i < |cfg.sizes| && j < |cfg.sizes| && u < cfg.sizes[i] && v < cfg.sizes[j]
    ensures (Offset(cfg.sizes, i) + u, Offset(cfg.sizes, j) + v) in PairYields(cfg, (i, j)) <==>
      Hit(cfg.coin, cfg.selfLoops, PairBlock(cfg, (i, j)), u, v)
  {
    var b := PairBlock(cfg, (i, j));
    var block := BlockYields(cfg.coin, cfg.selfLoops, b, cfg.sizes[j], cfg.sizes[i]);
    assert (Offset(cfg.sizes, i) + u, Offset(cfg.sizes, j) + v) == (b.c1Base + u, b.c2Base + v);
    assert PairYields(cfg, (i, j)) == block;
    BlockMember(cfg.coin, cfg.selfLoops, b, cfg.sizes[j], cfg.sizes[i], u, v);
  }

  /** Without the overrun, no other cluster pair's block yields an edge from cluster i to cluster j. */
  lemma ForeignBlockMisses<P>(cfg: Config<P>, pair: ClusterPair, i: nat, j: nat, u: nat, v: nat)
    requires WellShaped(cfg.sizes, cfg.probs) && !Overruns(cfg)
    requires pair.0 < |cfg.sizes| && pair.1 < |cfg.sizes| && pair != (i, j)
    requires i < |cfg.sizes| && j < |cfg.sizes| && u < cfg.sizes[i] && v < cfg.sizes[j]
    ensures (Offset(cfg.sizes, i) + u, Offset(cfg.sizes, j) + v) !in PairYields(cfg, pair)
  {
    var e := (Offset(cfg.sizes, i) + u, Offset(cfg.sizes, j) + v);
    ResetBlockInRange(cfg.coin, cfg.selfLoops, cfg.sizes, PairBlock(cfg, pair));
    if e in PairYields(cfg, pair) {
      ClusterOfUnique(cfg.sizes, e.0, i, pair.0);
      ClusterOfUnique(cfg.sizes, e.1, j, pair.1);
      assert false;
    }
  }

  /**
   * Without the overrun, base + (u, v) of cluster pair (i, j) is yielded exactly when
   * (i, j) is among the visited pairs and (u, v) is a hit: no other block
   * can yield it, since every block stays inside its own two clusters.
   */
  lemma {:induction false} YieldsMember<P>(cfg: Config<P>, pairs: seq<ClusterPair>, i: nat, j: nat, u: nat, v: nat)
    requires WellShaped(cfg.sizes, cfg.probs) && PairsIn(pairs, |cfg.sizes|) && !Overruns(cfg)
    requires i < |cfg.sizes| && j < |cfg.sizes| && u < cfg.sizes[i] && v < cfg.sizes[j]
    ensures (Offset(cfg.sizes, i) + u, Offset(cfg.sizes, j) + v) in YieldsOf(cfg, pairs) <==>
      (i, j) in pairs && Hit(cfg.coin, cfg.selfLoops, PairBlock(cfg, (i, j)), u, v)
  {
    if pairs != [] {
      var last := |pairs| - 1;
      var prefix, pair := pairs[..last], pairs[last];
      assert pairs == prefix + [pair];
      YieldsSnoc(cfg, prefix, pair);
      YieldsMember(cfg, prefix, i, j, u, v);
      if pair == (i, j) {
        OwnBlockMember(cfg, i, j, u, v);
      } else {
        ForeignBlockMisses(cfg, pair, i, j, u, v);
      }
    }
  }

  /**
   * Undirected (or directed with the restart), the generator yields
   * (Offset(i) + u, Offset(j) + v), for u in cluster i and v in cluster j,
   * exactly when pair (i, j) is visited (i <= j unless directed), the coin
   * of (u, v) for pair (i, j) comes up, and the pair is no forbidden self-loop.
   */
  lemma EdgesExactly<P>(cfg: Config<P>, i: nat, j: nat, u: nat, v: nat)
    requires WellShaped(cfg.sizes, cfg.probs) && !Overruns(cfg)
    requires i < |cfg.sizes| && j < |cfg.sizes| && u < cfg.sizes[i] && v < cfg.sizes[j]
    ensures (Offset(cfg.sizes, i) + u, Offset(cfg.sizes, j) + v) in NaiveEdges(cfg) <==>
      && (cfg.directed || i <= j)
      && cfg.coin(i, j, u, v, cfg.probs[i][j])
      && (Offset(cfg.sizes, i) + u != Offset(cfg.sizes, j) + v || cfg.selfLoops)
  {
    YieldsMember(cfg, PairOrder(|cfg.sizes|, cfg.directed), i, j, u, v);
    PairOrderVisits(|cfg.sizes|, cfg.directed, i, j);
  }

  lemma {:induction false} YieldsInRange<P>(cfg: Config<P>, pairs: seq<ClusterPair>)
    requires WellShaped(cfg.sizes, cfg.probs) && PairsIn(pairs, |cfg.sizes|) && !Overruns(cfg)
    ensures forall e :: e in YieldsOf(cfg, pairs) ==> InBounds(e, Total(cfg.sizes))
  {
    if pairs != [] {
      var last := |pairs| - 1;
      YieldsInRange(cfg, pairs[..last]);
      ResetBlockInRange(cfg.coin, cfg.selfLoops, cfg.sizes, PairBlock(cfg, pairs[last]));
    }
  }

  /** Undirected (or directed with the restart), every yielded index is below sum(cluster_sizes). */
  lemma EdgesInRange<P>(cfg: Config<P>)
    requires WellShaped(cfg.sizes, cfg.probs) && !Overruns(cfg)
    ensures forall e :: e in NaiveEdges(cfg) ==> InBounds(e, Total(cfg.sizes))
  {
    YieldsInRange(cfg, PairOrder(|cfg.sizes|, cfg.directed));
  }
  /**
   * Undirected (or directed with the restart), every yielded edge runs from
   * a vertex of some cluster i to a vertex of some cluster j, with i <= j
   * unless the graph is directed.
   */
  lemma EdgesBetweenClusters<P>(cfg: Config<P>, e: Edge)
    requires WellShaped(cfg.sizes, cfg.probs) && !Overruns(cfg)
    requires e in NaiveEdges(cfg)
    ensures exists i, j :: InCluster(cfg.sizes, e.0, i) && InCluster(cfg.sizes, e.1, j) && (cfg.directed || i <= j)
  {
    EdgesInRange(cfg);
    IndexCovered(cfg.sizes, e.0, |cfg.sizes|);
    IndexCovered(cfg.sizes, e.1, |cfg.sizes|);
    var i: nat :| i < |cfg.sizes| && InCluster(cfg.sizes, e.0, i);
    var j: nat :| j < |cfg.sizes| && InCluster(cfg.sizes, e.1, j);
    var u, v := e.0 - Offset(cfg.sizes, i), e.1 - Offset(cfg.sizes, j);
    assert e == (Offset(cfg.sizes, i) + u, Offset(cfg.sizes, j) + v);
    EdgesExactly(cfg, i, j, u, v);
  }


  /**
   * Directed, c2_base_index is not reset: two one-vertex clusters, every
   * coin a hit and no self-loops yield (0, 1) and then (1, 2), whose
   * second index is past the two vertices of the graph; the edge (1, 0)
   * is never yielded.
   */
  lemma DirectedOffsetOverrun<P>(cfg: Config<P>)
    requires cfg.sizes == [1, 1] && WellShaped(cfg.sizes, cfg.probs)
    requires Overruns(cfg) && !cfg.selfLoops
    requires forall i, j, u, v, p :: cfg.coin(i, j, u, v, p)
    ensures NaiveEdges(cfg) == [(0, 1), (1, 2)]
    ensures Total(cfg.sizes) == 2
    ensures !InBounds(NaiveEdges(cfg)[1], Total(cfg.sizes))
  {
    OverrunStream(cfg);
    TotalOfTwoUnits(cfg.sizes);
  }

  /** The stream of that configuration, pair by pair. */
  lemma OverrunStream<P>(cfg: Config<P>)
    requires cfg.sizes == [1, 1] && WellShaped(cfg.sizes, cfg.probs)
    requires Overruns(cfg) && !cfg.selfLoops
    requires forall i, j, u, v, p :: cfg.coin(i, j, u, v, p)
    ensures NaiveEdges(cfg) == [(0, 1), (1, 2)]
  {
    DirectedPairOrderOfTwo(|cfg.sizes|, cfg.directed);
    YieldsOfFour(cfg, (0, 0), (0, 1), (1, 0), (1, 1));
    OverrunBlocks(cfg);
    var a, b := (0, 1), (1, 2);
    ConcatWithEmpty(a, b);
  }

  /** A plain sequence fact, stated as a lemma so that the proofs above can cite it as one step instead of re-deriving it each time. */
  lemma ConcatWithEmpty(a: Edge, b: Edge)
    ensures [] + [a] + [] + [b] == [a, b]
  {
  }

  /** An arithmetic fact about two one-vertex clusters, stated as a lemma so that the counterexample can cite it as one step. */
  lemma TotalOfTwoUnits(sizes: seq<nat>)
    requires sizes == [1, 1]
    ensures Total(sizes) == 2
  {
    assert Offset(sizes, 1) == 1;
  }

  /** With two clusters of one vertex each and every coin hitting, the four scans yield nothing, (0, 1), nothing and (1, 2). */
  lemma OverrunBlocks<P>(cfg: Config<P>)
    requires cfg.sizes == [1, 1] && WellShaped(cfg.sizes, cfg.probs)
    requires Overruns(cfg) && !cfg.selfLoops
    requires forall i, j, u, v, p :: cfg.coin(i, j, u, v, p)
    ensures PairYields(cfg, (0, 0)) == []
    ensures PairYields(cfg, (0, 1)) == [(0, 1)]
    ensures PairYields(cfg, (1, 0)) == []
    ensures PairYields(cfg, (1, 1)) == [(1, 2)]
  {
    assert Offset(cfg.sizes, 1) == 1;
    UnitBlock(cfg.coin, cfg.selfLoops, PairBlock(cfg, (0, 0)));
    UnitBlock(cfg.coin, cfg.selfLoops, PairBlock(cfg, (0, 1)));
    UnitBlock(cfg.coin, cfg.selfLoops, PairBlock(cfg, (1, 0)));
    UnitBlock(cfg.coin, cfg.selfLoops, PairBlock(cfg, (1, 1)));
  }

  lemma DirectedPairOrderOfTwo(k: nat, directed: bool)
    requires k == 2 && directed
    ensures PairOrder(k, directed) == [(0, 0), (0, 1), (1, 0), (1, 1)]
  {
    var row0, row1 := Row(k, 0, directed), Row(k, 1, directed);
    DirectedRowOfTwo(k, directed, 0);
    DirectedRowOfTwo(k, directed, 1);
    var first := PairsBefore(k, directed, 1);
    assert first == PairsBefore(k, directed, 0) + row0;
    assert first == row0;
    assert PairOrder(k, directed) == first + row1;
    ConcatPairs((0, 0), (0, 1), (1, 0), (1, 1));
  }

  lemma DirectedRowOfTwo(k: nat, directed: bool, i: nat)
    requires k == 2 && directed && i < 2
    ensures Row(k, i, directed) == [(i, 0), (i, 1)]
  {
    RowPrefixSnoc(k, i, directed, 0);
    RowPrefixSnoc(k, i, directed, 1);
  }

  /** A plain sequence fact, stated as a lemma so that the proofs above can cite it as one step instead of re-deriving it each time. */
  lemma ConcatPairs(a: ClusterPair, b: ClusterPair, c: ClusterPair, d: ClusterPair)
    ensures [a, b] + [c, d] == [a, b, c, d]
  {
  }

  /** A block of two one-vertex clusters yields at most the pair of their base indices. */
  lemma UnitBlock<P>(coin: Coin<P>, selfLoops: bool, b: Block<P>)
    ensures BlockYields(coin, selfLoops, b, 1, 1) == Cell(coin, selfLoops, b, 0, 0)
  {
    assert RowYields(coin, selfLoops, b, 0, 1) == [] + Cell(coin, selfLoops, b, 0, 0);
  }

  lemma YieldsOfFour<P>(cfg: Config<P>, p0: ClusterPair, p1: ClusterPair, p2: ClusterPair, p3: ClusterPair)
    requires WellShaped(cfg.sizes, cfg.probs)
    requires p0.0 < |cfg.sizes| && p0.1 < |cfg.sizes| && p1.0 < |cfg.sizes| && p1.1 < |cfg.sizes|
    requires p2.0 < |cfg.sizes| && p2.1 < |cfg.sizes| && p3.0 < |cfg.sizes| && p3.1 < |cfg.sizes|
    ensures PairsIn([p0, p1, p2, p3], |cfg.sizes|)
    ensures YieldsOf(cfg, [p0, p1, p2, p3])
      == PairYields(cfg, p0) + PairYields(cfg, p1) + PairYields(cfg, p2) + PairYields(cfg, p3)
  {
    var s0: seq<ClusterPair> := [];
    assert PairsIn(s0, |cfg.sizes|);
    YieldsSnoc(cfg, s0, p0);
    var s1 := s0 + [p0];
    assert YieldsOf(cfg, s1) == [] + PairYields(cfg, p0) == PairYields(cfg, p0);
    YieldsSnoc(cfg, s1, p1);
    var s2 := s1 + [p1];
    assert YieldsOf(cfg, s2) == PairYields(cfg, p0) + PairYields(cfg, p1);
    YieldsSnoc(cfg, s2, p2);
    var s3 := s2 + [p2];
    assert YieldsOf(cfg, s3) == PairYields(cfg, p0) + PairYields(cfg, p1) + PairYields(cfg, p2);
    YieldsSnoc(cfg, s3, p3);
    assert s3 + [p3] == [p0, p1, p2, p3];
  }

  // ---------------------------------------------------------------------
  // The public entry points sbm_adjmat and ssbm_adjmat of sbm.py
  // ---------------------------------------------------------------------

  /**
   * sbm_adjmat of sbm.py: write every yielded edge, mirrored when
   * undirected, into a sum(cluster_sizes)-square matrix. Undirected (or
   * directed with the restart) the matrix is always built; directed as
   * written, an overrun index ends the build.
   */
  method SbmAdjMat<P>(cfg: Config<P>) returns (r: BuildResult, edges: seq<Edge>)
    requires WellShaped(cfg.sizes, cfg.probs)
    ensures edges == NaiveEdges(cfg)
    ensures r.Built? <==> forall t :: 0 <= t < |edges| ==> InBounds(edges[t], Total(cfg.sizes))
    ensures r.OutOfBounds? ==>
      r.at < |edges| && !InBounds(edges[r.at], Total(cfg.sizes)) && forall t :: 0 <= t < r.at ==> InBounds(edges[t], Total(cfg.sizes))
    ensures !Overruns(cfg) ==> r.Built?
    ensures r.Built? ==> fresh(r.matrix) && r.matrix.Length0 == Total(cfg.sizes) && r.matrix.Length1 == Total(cfg.sizes)
    ensures r.Built? ==> forall a, b :: 0 <= a < Total(cfg.sizes) && 0 <= b < Total(cfg.sizes) ==>
      (r.matrix[a, b] <==> (a, b) in Entries(edges, cfg.directed))
    ensures r.Built? && !cfg.directed ==> forall a, b :: 0 <= a < Total(cfg.sizes) && 0 <= b < Total(cfg.sizes) ==>
      r.matrix[a, b] == r.matrix[b, a]
    ensures r.Built? && !cfg.selfLoops ==> forall a :: 0 <= a < Total(cfg.sizes) ==> !r.matrix[a, a]
  {
    edges := GenerateEdges(cfg);
    NoForbiddenSelfLoops(cfg);
    if !Overruns(cfg) {
      EdgesInRange(cfg);
    }
    r := FillAdjacency(Total(cfg.sizes), edges, cfg.directed);
    if r.Built? {
      forall a, b | 0 <= a < Total(cfg.sizes) && 0 <= b < Total(cfg.sizes)
        ensures !cfg.directed ==> r.matrix[a, b] == r.matrix[b, a]
      {
        UndirectedEntriesSymmetric(edges, a, b);
      }
      forall a | 0 <= a < Total(cfg.sizes) && !cfg.selfLoops
        ensures !r.matrix[a, a]
      {
        EntriesExactly(edges, cfg.directed, a, a);
      }
    }
  }

  /**
   * ssbm_adjmat of sbm.py: k clusters of floor(n/k) vertices, p inside
   * clusters and q between them, undirected and without self-loops, so the
   * matrix is always built. None when k = 0.
   */
  method SsbmAdjMat<P>(n: nat, k: nat, p: P, q: P, coin: Coin<P>) returns (adj: Option<array2<bool>>)
    ensures adj.None? <==> k == 0
    ensures adj.Some? ==> fresh(adj.value)
    ensures adj.Some? ==> adj.value.Length0 == adj.value.Length1 == k * (n / k)
    ensures adj.Some? ==> forall a :: 0 <= a < k * (n / k) ==> !adj.value[a, a]
    ensures adj.Some? ==>
      forall a, b :: 0 <= a < k * (n / k) && 0 <= b < k * (n / k) ==> adj.value[a, b] == adj.value[b, a]
  {
    var params := SymmetricParameters(n, k, p, q);
    if params.None? {
      return None;
    }
    var sizes := params.value.clusterSizes;
    OffsetOfEqualSizes(sizes, n / k, k);
    var r, _ := SbmAdjMat(Config(sizes, params.value.probMatrix, coin, false, false, false));
    return Some(r.matrix);
  }
}
