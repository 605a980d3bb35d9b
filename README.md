# pysbm: the stochastic block model generators, modelled in Dafny

pysbm generates random graphs from the stochastic block model. The vertices
are split into clusters of given sizes, and a vertex of cluster i is joined
to a vertex of cluster j with probability Q[i][j]. The repository has two
generators:

- `sbm/stochastic_block_model.py`. For each visited cluster pair it draws a
  binomial number of edges over the pair's possible edges. It then picks
  that many distinct local vertex pairs by rejection against a per-pair
  `edges_added` set. It also has a rank decoder, `_get_edge_from_sample_num`,
  that numbers the candidate pairs 0 .. count-1.
- `sbm/sbm.py`, the original generator. It tosses one coin,
  `random.random() < Q[i][j]`, per vertex pair of every visited cluster
  pair, then applies the self-loop filter.

Each file also has `sbm_adjmat`, which writes the yielded edges into a
`sum(cluster_sizes)`-square adjacency matrix and mirrors them when the graph
is undirected. Each also has `ssbm_adjmat`, the symmetric model: k clusters
of `floor(n/k)` vertices, with p on the diagonal of Q and q elsewhere.

The project has five modules:

- `EdgeIndex` (`edge_index.dfy`) holds the possible-edge count, the four
  rank numberings and their inverses, and the integer triangular root that
  replaces the floating-point square root.
- `Clusters` (`clusters.dfy`) holds the global vertex numbering by cluster
  offsets, the order in which both drivers visit cluster pairs, and the
  parameters of the symmetric model.
- `Adjacency` (`adjacency.dfy`) holds the writing loop of `sbm_adjmat` over
  a 2-D boolean array. An index that the container refuses ends the build.
- `StochasticBlockModel` (`sampler.dfy`) holds the generator of
  `stochastic_block_model.py` and its entry points.
- `NaiveSbm` (`naive.dfy`) holds the generator of `sbm.py` and its entry
  points. Its configuration has a flag `resetBase`. With the flag off it is
  `sbm.py` as written. With the flag on, a directed row restarts
  `c2_base_index` at 0, as `stochastic_block_model.py` does on line 163;
  this is the corrected generator of Finding 2.

Every random source is an oracle parameter:

- the binomial draw is `binomial(i, j, trials, prob)`;
- the coin is `coin(i, j, u, v, prob)`;
- each `while True` rejection loop becomes the nondeterministic choice of a
  draw that passes its exit test.

The probabilities are values of an opaque type `P`, which the model never
inspects. Each generator is a method with loops, proved equal to a
specification function of the visited cluster pairs (`Emitted` and
`NaiveEdges`). The lemmas state what the source promises about those
functions.

Three facts about the code shape the model:

- `edges_added` holds ordered local pairs. Inside one cluster of an
  undirected graph, (i, j) and (j, i) are both accepted as different
  picks; see `StochasticBlockModel.UndirectedSeenSetAdmitsMirrorPair`.
- `c1_base_index` and `c2_base_index` are running counters. They are
  modelled as loop variables whose invariants tie them to `Offset`, the
  sum of the sizes of the earlier clusters.
- Line 28 of `stochastic_block_model.py` reduces the rank modulo
  `c1_size`, although the rows have length `c2_size` (Finding 1).

## Model

| member | source | states |
|---|---|---|
| EdgeIndex.TriRoot | sbm/stochastic_block_model.py:52-55 | the integer root t is at least 1 and brackets the rank between consecutive triangular numbers: t(t-1)/2 <= r < (t+1)t/2 |
| EdgeIndex.TriRootUnique | sbm/stochastic_block_model.py:52-55 | any t that brackets r this way is TriRoot(r), so the root is the largest t with t(t-1)/2 <= r |
| EdgeIndex.TriRootIsQuadraticFloor | sbm/stochastic_block_model.py:52-55 | (2t-1)^2 <= 1+8r < (2t+1)^2, i.e. t is the floor of (1 + sqrt(1 + 8r)) / 2, the value the source computes in floating point |
| EdgeIndex.PairsBelowIsTri | sbm/stochastic_block_model.py:95 | the base count n(n-1)/2 is exactly the triangular number of n, so in the model's integer arithmetic the division by 2 leaves no remainder (the source divides in floating point; see Left out) |
| EdgeIndex.NumPosEdges | sbm/stochastic_block_model.py:79-110 | the count of possible edges never exceeds c1_size * c2_size, the size of the block it is drawn from |
| EdgeIndex.NumPosEdgesClosedForm | sbm/stochastic_block_model.py:79-110 | the count is c1*c2 for different clusters whatever the flags; inside one cluster of n vertices it is n(n-1)/2, n(n+1)/2, n(n-1) or n^2 for undirected/directed with and without self-loops |
| EdgeIndex.NumPosEdgesExamples | sbm/stochastic_block_model.py:90-110 | clusters of 5 and 3 give 15 for every flag combination; one cluster of 5 gives 10, 15, 20 and 25 |
| EdgeIndex.DecodeRowMajor | sbm/stochastic_block_model.py:25-29 | the decoded pair (u, v) has v below the row length and u*cols + v == r |
| EdgeIndex.RowMajorRoundTrip | sbm/stochastic_block_model.py:25-29 | every pair of a rows x cols block encodes below rows*cols and decodes back to itself |
| EdgeIndex.RowMajorIncreasing | sbm/stochastic_block_model.py:25-29 | row-major ranks grow with the lexicographic order of the pairs |
| EdgeIndex.DecodeOffDiagonal | sbm/stochastic_block_model.py:32-42 | directed without self-loops, the decoded pair is never on the diagonal and its second index is below n |
| EdgeIndex.OffDiagonalRoundTrip | sbm/stochastic_block_model.py:32-42 | every off-diagonal pair of an n x n block has a rank below n(n-1) that decodes back to it |
| EdgeIndex.OffDiagonalDecodeInRange | sbm/stochastic_block_model.py:32-42 | every rank below n(n-1) decodes to a pair inside the block whose encoding is that rank |
| EdgeIndex.DecodeLowerTriangle | sbm/stochastic_block_model.py:46-59 | undirected with self-loops, the decoded pair satisfies v <= u |
| EdgeIndex.LowerTriangleRoundTrip | sbm/stochastic_block_model.py:46-59 | every pair with v <= u < n encodes below n(n+1)/2 and decodes back to itself |
| EdgeIndex.LowerTriangleDecodeInRange | sbm/stochastic_block_model.py:46-59 | every rank below n(n+1)/2 decodes to a pair with u < n whose encoding is that rank |
| EdgeIndex.DecodeStrictLower | sbm/stochastic_block_model.py:60-73 | undirected without self-loops, the decoded pair satisfies v < u |
| EdgeIndex.StrictLowerRoundTrip | sbm/stochastic_block_model.py:60-73 | every pair with v < u < n encodes below n(n-1)/2 and decodes back to itself |
| EdgeIndex.StrictLowerDecodeInRange | sbm/stochastic_block_model.py:60-73 | every rank below n(n-1)/2 decodes to a pair with u < n whose encoding is that rank |
| EdgeIndex.TriangularExamples | sbm/stochastic_block_model.py:46-73 | the triangular numberings start (0,0),(1,0),(1,1),(2,0),...,(2,2),(3,0) and (1,0),(2,0),(2,1),(3,0),...,(3,2),(4,0) |
| EdgeIndex.CountByScheme | sbm/stochastic_block_model.py:79-110 | the count each flag combination selects is the size of the numbering that the same flags select in the decoder |
| EdgeIndex.DecodeIsCandidate | sbm/stochastic_block_model.py:10-76 | every rank below the count decodes to a candidate pair of the two clusters, and encoding it gives the rank back |
| EdgeIndex.EncodeIsRank | sbm/stochastic_block_model.py:10-76 | every candidate pair has a rank below the count, and decoding that rank gives the pair back; with DecodeIsCandidate, decoding is a bijection from [0, count) onto the candidates |
| EdgeIndex.EncodeIncreasing | sbm/stochastic_block_model.py:10-76 | lexicographically smaller candidates get smaller ranks |
| EdgeIndex.DecodeIncreasing | sbm/stochastic_block_model.py:10-76 | increasing ranks decode to lexicographically increasing pairs, the enumeration order of the candidate lists |
| EdgeIndex.DecodeAsWritten | sbm/stochastic_block_model.py:25-29 | the decoder as written agrees with the corrected one whenever the two clusters have equal sizes |
| EdgeIndex.DecodeAsWrittenLeavesBlock | sbm/stochastic_block_model.py:27-28 | for clusters of 5 and 3, rank 4 is in range, yet the decoder as written returns (1, 4), which is outside the 5 x 3 block; the corrected decoder returns (1, 1) |
| Clusters.OffsetMonotone | sbm/stochastic_block_model.py:226-227 | the running base index never decreases from one cluster to the next |
| Clusters.ClusterRangeBefore | sbm/stochastic_block_model.py:226-227 | cluster i's index range ends at or before the first vertex of every later cluster, and at or before sum(cluster_sizes) |
| Clusters.GlobalIndexInRange | sbm/stochastic_block_model.py:200-203 | base plus a local index of cluster i stays inside cluster i's range and below sum(cluster_sizes) |
| Clusters.IndexCovered | sbm/sbm.py:58-62 | the clusters' index ranges leave no gap: every index below the first vertex of cluster m lies in one of the clusters before m |
| Clusters.ClusterOfUnique | sbm/stochastic_block_model.py:200-203 | a global index lies in the range of at most one cluster |
| Clusters.RowPrefix | sbm/stochastic_block_model.py:159-167 | the first n pairs visited with cluster_1 = i are (i, start), (i, start+1), ..., where start is 0 when directed and i otherwise |
| Clusters.PairsBeforeVisits | sbm/stochastic_block_model.py:155-167 | after the first rows values of cluster_1, exactly the pairs (i, j) with i < rows and j < k have been visited, with i <= j when undirected |
| Clusters.PairOrderVisits | sbm/stochastic_block_model.py:155-167 | the drivers visit exactly the pairs with cluster_1 <= cluster_2 when undirected, and all k^2 ordered pairs when directed |
| Clusters.PairOrderIncreasing | sbm/stochastic_block_model.py:155-167 | pairs are visited in strictly increasing lexicographic order, so no pair is visited twice |
| Clusters.OffsetOfEqualSizes | sbm/stochastic_block_model.py:282 | with k clusters of s vertices, cluster i starts at i*s |
| Clusters.SymmetricParameters | sbm/stochastic_block_model.py:281-289 | None exactly when k = 0 (the division by zero); otherwise k sizes of floor(n/k) whose total is at most n and less than n + k, and a k x k matrix with p on the diagonal and q elsewhere |
| Adjacency.EntriesExactly | sbm/stochastic_block_model.py:256-261 | entry [a, b] is set exactly when some yielded edge is (a, b) or, undirected, (b, a) |
| Adjacency.UndirectedEntriesSymmetric | sbm/stochastic_block_model.py:260-261 | undirected, entry [a, b] is set exactly when entry [b, a] is |
| Adjacency.FillAdjacency | sbm/stochastic_block_model.py:252-261 | the matrix is built exactly when every edge is inside the n x n container; otherwise the result names the first refused edge; a built matrix is new, n x n, and holds exactly the written entries |
| StochasticBlockModel.DrawableIsDirectedCandidate | sbm/stochastic_block_model.py:186-192 | the pairs one pass of the rejection loop can produce are exactly the candidates of the directed numbering |
| StochasticBlockModel.CountAtMostDirected | sbm/stochastic_block_model.py:79-110 | the undirected count never exceeds the directed one, so there are always at least as many drawable pairs as possible edges |
| EdgeIndex.Decode | sbm/stochastic_block_model.py:10-76 | every rank below the count of possible edges decodes to a candidate pair of the chosen flags: inside the block, off the diagonal without self-loops, on or below it when undirected |
| StochasticBlockModel.Candidates | sbm/stochastic_block_model.py:10-76 | the first m ranks of the directed numbering decode to m distinct candidate pairs |
| StochasticBlockModel.FreshDrawExists | sbm/stochastic_block_model.py:185-195 | while edges_added holds fewer pairs than there are possible edges, some drawable pair is not yet in it, so the rejection loop has a pair to accept |
| StochasticBlockModel.DrawFresh | sbm/stochastic_block_model.py:186-195 | the accepted pair lies in the two clusters, is off the diagonal inside one cluster without self-loops, and is not in edges_added |
| StochasticBlockModel.SamplePairEdges | sbm/stochastic_block_model.py:183-198 | exactly num_edges local pairs, each drawable and no two equal; the loop invariant keeps edges_added equal to the pairs produced so far and its size one per edge |
| StochasticBlockModel.UndirectedSeenSetAdmitsMirrorPair | sbm/stochastic_block_model.py:194-198 | in one cluster of an undirected graph, (0, 1) and (1, 0) are both valid picks, yet after mirroring they set the entries of a single edge |
| StochasticBlockModel.NumberOfEdges | sbm/stochastic_block_model.py:113-129 | the drawn count never exceeds the number of possible edges when the binomial draw is bounded by its trials |
| StochasticBlockModel.GlobalizeInClusters | sbm/stochastic_block_model.py:200-203 | shifting a pair of the sizes[i] x sizes[j] block by c1_base_index and c2_base_index gives an edge whose endpoints lie in clusters i and j, below the number of vertices |
| StochasticBlockModel.GlobalizeKeepsDistinct | sbm/stochastic_block_model.py:200-203 | the shift is one-to-one: the yielded edges of a pair repeat if and only if the local pairs drawn for it do |
| StochasticBlockModel.VisitPair | sbm/stochastic_block_model.py:167-203 | one visit extends what the row has sampled and yielded by that pair's block |
| StochasticBlockModel.StartRow | sbm/stochastic_block_model.py:157-165 | a row's first cluster_2 is 0 when directed and cluster_1 otherwise, and its c2_base_index is that cluster's first vertex, because the directed case restarts it at 0 |
| StochasticBlockModel.GenerateRow | sbm/stochastic_block_model.py:155-224 | the row of cluster_1 yields, in order, the blocks of its visited pairs, with c2_base_index equal to the offset of each cluster_2 |
| StochasticBlockModel.ScanRow | sbm/stochastic_block_model.py:155-227 | one pass of the cluster_1 loop extends the stream and picks by that row's, and c1_base_index then advances by cluster_1's size |
| StochasticBlockModel.GenerateEdges | sbm/stochastic_block_model.py:132-227 | the generator yields Emitted over the visiting order, for picks that sample every visited pair; every yielded index is below sum(cluster_sizes), no self-loop is yielded unless enabled, and no edge is yielded twice |
| StochasticBlockModel.EmittedOrigin | sbm/stochastic_block_model.py:200-203 | every yielded edge is some visited pair's picked local pair shifted by that pair's offsets |
| StochasticBlockModel.OriginInClusters | sbm/stochastic_block_model.py:200-203 | an edge from pair (i, j) has u in cluster i's range and v in cluster j's range |
| StochasticBlockModel.OriginsOfDistinctPairsDiffer | sbm/stochastic_block_model.py:200-203 | edges coming from two different cluster pairs are different edges |
| StochasticBlockModel.PrefixMissesLastBlock | sbm/stochastic_block_model.py:155-203 | no edge yielded for an earlier pair equals an edge of the pair being visited |
| StochasticBlockModel.EmittedDistinct | sbm/stochastic_block_model.py:183-203 | no edge is yielded twice when the visited pairs are distinct and each pair's picks are distinct |
| StochasticBlockModel.SampledPicks | sbm/stochastic_block_model.py:183-198 | sampled picks lie inside their clusters, are distinct within each pair, and are off the diagonal inside one cluster without self-loops |
| StochasticBlockModel.EmittedEdgeWellFormed | sbm/stochastic_block_model.py:200-203 | one yielded edge is inside the graph, between clusters i <= j (any i, j when directed), and no forbidden self-loop |
| StochasticBlockModel.PairOrderNoRepeats | sbm/stochastic_block_model.py:155-167 | the visiting order never repeats a cluster pair |
| StochasticBlockModel.GeneratedEdgesWellFormed | sbm/stochastic_block_model.py:132-227 | every yielded index is below sum(cluster_sizes); u and v lie in the clusters of a visited pair; no self-loop unless enabled; no edge is yielded twice |
| StochasticBlockModel.SbmAdjMat | sbm/stochastic_block_model.py:230-264 | a new sum(cluster_sizes)-square matrix whose set entries are exactly the yielded edges, mirrored when undirected; symmetric when undirected; an empty diagonal without self-loops |
| StochasticBlockModel.SsbmAdjMat | sbm/stochastic_block_model.py:267-292 | None exactly when k = 0; otherwise a new k*floor(n/k)-square matrix with an empty diagonal, symmetric when undirected |
| NaiveSbm.RowMember | sbm/sbm.py:46-56 | base + (u, v) is among a row's yields exactly when u is that row, v is scanned, and the coin hits and passes the self-loop filter |
| NaiveSbm.BlockMember | sbm/sbm.py:45-56 | base + (u, v) is among a block's yields exactly when u is a scanned row and (u, v) hits and passes the filter |
| NaiveSbm.RowShape | sbm/sbm.py:46-56 | every yield of a row is the row's u and a v inside the scanned range, and passes the self-loop filter |
| NaiveSbm.BlockShape | sbm/sbm.py:45-56 | every yield of a block is inside the block's two base ranges and passes the self-loop filter |
| NaiveSbm.ScanCell | sbm/sbm.py:48-56 | one coin: the stream gains base + (u, v) exactly when the coin hits and the self-loop filter passes, and is otherwise unchanged |
| NaiveSbm.ScanBlock | sbm/sbm.py:45-56 | the two innermost loops yield exactly the block's hits in u-major order |
| NaiveSbm.ScanPair | sbm/sbm.py:43-59 | one pass of the cluster_2 loop appends the pair's hits, and c2_base_index then advances by cluster_2's size |
| NaiveSbm.StartRow | sbm/sbm.py:34-41 | a row's first cluster_2 is 0 when directed and cluster_1 otherwise; its c2_base_index is c1_base_index, which when directed is Offset(cluster_1) past cluster 0's first vertex unless the restart is enabled |
| NaiveSbm.GenerateRow | sbm/sbm.py:34-59 | the row of cluster_1 yields the blocks of its visited pairs, with c2_base_index starting at c1_base_index and never reset (restarted at 0 when directed with the restart enabled) |
| NaiveSbm.ScanRow | sbm/sbm.py:32-62 | one pass of the cluster_1 loop appends the row's yields, and c1_base_index then advances by cluster_1's size |
| NaiveSbm.GenerateEdges | sbm/sbm.py:9-62 | the generator yields exactly NaiveEdges, the hits of every visited pair in visiting order |
| NaiveSbm.YieldsFiltered | sbm/sbm.py:55-56 | the yields of any sequence of visited pairs contain a self-loop only when self-loops are enabled |
| NaiveSbm.NoForbiddenSelfLoops | sbm/sbm.py:55-56 | the generator yields (u, u) only when self-loops are enabled, directed or not |
| NaiveSbm.ResetBlockInRange | sbm/stochastic_block_model.py:161-165 | with c2_base_index at the first vertex of cluster_2, every yield of a block lies in cluster_1 x cluster_2 and inside the graph |
| NaiveSbm.OwnBlockMember | sbm/sbm.py:45-56 | without the overrun, within its own block base + (u, v) is yielded exactly on a hit |
| NaiveSbm.ForeignBlockMisses | sbm/sbm.py:43-56 | without the overrun, no other cluster pair's block yields an edge from cluster i to cluster j |
| NaiveSbm.YieldsMember | sbm/sbm.py:43-56 | without the overrun, base + (u, v) is yielded for a sequence of pairs exactly when (i, j) is among them and (u, v) hits |
| NaiveSbm.EdgesExactly | sbm/sbm.py:32-56 | undirected, or directed with the restart: (Offset(i)+u, Offset(j)+v) is yielded exactly when the pair is visited (i <= j unless directed), the coin for (i, j, u, v) hits, and the edge is no forbidden self-loop |
| NaiveSbm.EdgesBetweenClusters | sbm/sbm.py:43-56 | undirected, or directed with the restart: every yielded u lies in the range of some cluster i and v in the range of some cluster j, with i <= j unless directed |
| NaiveSbm.YieldsInRange | sbm/sbm.py:34-53 | without the overrun, the yields of any visited pairs are inside the graph |
| NaiveSbm.EdgesInRange | sbm/sbm.py:34-53 | undirected, or directed with the restart, every yielded index is below sum(cluster_sizes) |
| NaiveSbm.DirectedOffsetOverrun | sbm/sbm.py:34-41 | directed, two one-vertex clusters, no self-loops and every coin a hit: the stream is (0, 1), (1, 2); the second edge is outside the 2 x 2 graph, and (1, 0) is never yielded |
| NaiveSbm.OverrunStream | sbm/sbm.py:32-62 | in that configuration the whole stream is (0, 1) followed by (1, 2) |
| NaiveSbm.OverrunBlocks | sbm/sbm.py:34-59 | in that configuration the four scans yield nothing, (0, 1), nothing and (1, 2) |
| NaiveSbm.DirectedPairOrderOfTwo | sbm/sbm.py:38-43 | directed with two clusters, the visiting order is (0,0), (0,1), (1,0), (1,1) |
| NaiveSbm.DirectedRowOfTwo | sbm/sbm.py:38-43 | directed with two clusters, the row of cluster i visits (i, 0) and then (i, 1) |
| NaiveSbm.SbmAdjMat | sbm/sbm.py:65-99 | built exactly when every yielded edge is inside the graph, always when undirected or with the restart; otherwise the first overrun edge is reported; a built matrix is new, sum(cluster_sizes)-square, holds exactly the yielded edges (mirrored when undirected), is symmetric when undirected, and has an empty diagonal without self-loops |
| NaiveSbm.SsbmAdjMat | sbm/sbm.py:102-126 | None exactly when k = 0; otherwise a new k*floor(n/k)-square symmetric matrix with an empty diagonal |

## Left out

- The random sources are oracle parameters: `np.random.binomial`, `random.choice` and `random.random()` with its float comparison. No distributional claim is stated.
- The `while True` rejection loop is the nondeterministic choice of a draw that passes its exit test. The model proves such a draw exists. It does not model termination, which holds only with probability 1.
- `math.sqrt` and `math.floor` on floats are replaced by the exact integer triangular root `TriRoot`. Rounding is not modelled.
- The second index on lines 58 and 72 of `stochastic_block_model.py` is a Python float, because of `/ 2`. It is modelled as an exact integer.
- Several divisions are floating-point `/` in the source and exact integer division in the model. They are `int(edge_num / c2_size)` on line 27 and `int(edge_num / (c2_size - 1))` on line 36 of `stochastic_block_model.py`, `int((c1_size * (c1_size - 1)) / 2)` on its line 95, and `int(math.floor(n/k))` on its line 282 and on line 116 of `sbm.py`. The two agree only while the values stay below about 2^53, where doubles stop being exact. Above that the source can round: `n = 2^53 + 1, k = 1` gives one cluster of 2^53 vertices in the source but 2^53 + 1 in `SymmetricParameters`. Rounding is not modelled.
- Line 37 of `stochastic_block_model.py` reduces modulo `c1_size - 1`. Inside one cluster this equals `c2_size - 1`, so it needs no separate treatment.
- EdgeIndex.Decode: requires equal sizes when the two clusters are the same, since the numbering of one cluster is defined on a square block. In `stochastic_block_model.py` the function's call (lines 211-216) sits inside the commented-out alternative sampler, so no live line of the core calls it; its other callers are outside this model. The unreachable exception on line 76 is not modelled.
- The scipy `lil_matrix` container and `.tocsr()` are not modelled. The matrix is a 2-D boolean array; a refused index ends the build with `OutOfBounds`.
- The `print` on line 168 of `stochastic_block_model.py` is I/O and is not modelled.
- The commented-out rank-sampling block on lines 205-221 of `stochastic_block_model.py` is dead code. The rank decoder it would call is modelled on its own.
- `example_usage.py`, `setup.py` and `tests/test_sbm.py` are not part of this model.
- StochasticBlockModel.NumberOfEdges: its bound holds only under the assumption that the binomial draw never exceeds its trials, which numpy promises but the model takes as a hypothesis.
- NaiveSbm.EdgesExactly: the exact edge set is stated only without the overrun, that is undirected or directed with the restart. Directed as written, the stream is still fully specified by `NaiveEdges`, but the offsets overrun (Finding 2), so no per-cluster membership law holds.
- StochasticBlockModel.SsbmAdjMat and NaiveSbm.SsbmAdjMat: the contracts state the shape, symmetry and empty diagonal. They do not restate the entries in terms of the yielded edges; `SbmAdjMat` states that.
- No parameter validation is modelled, because the source does none. The probability matrix must be k x k (`WellShaped`), since the source indexes it that way. `np.random.binomial` itself raises an error for a probability outside [0, 1]; the binomial oracle is total and does not model that error.
- Cluster sizes, indices, n and k are non-negative unbounded integers. Negative inputs are not modelled. The source does not reject them: a negative `k` in `ssbm_adjmat` gives an empty partition and a 0 x 0 matrix.

## Findings

| source | as written | input that shows it | evidently intended | confidence | as-written member | corrected member |
|---|---|---|---|---|---|---|
| sbm/stochastic_block_model.py:27-28 | the row-major branch takes `edge_num % c1_size`, though the rows have length `c2_size` | clusters of sizes 5 and 3, rank 4: the result is (1, 4), but the second cluster has 3 vertices | `edge_num % c2_size`, which decodes rank 4 to (1, 1) and makes decoding a bijection onto the 5 x 3 block | not executed | EdgeIndex.DecodeAsWrittenLeavesBlock | EdgeIndex.DecodeIsCandidate |
| sbm/sbm.py:34-41 | when directed, `c2_base_index` starts at `c1_base_index` and is never reset to 0 for the loop over all `cluster_2` | sizes [1, 1], directed, no self-loops, every coin a hit: the stream is (0, 1), (1, 2), and (1, 2) is outside the 2 x 2 matrix | restart `c2_base_index` at 0 when directed, as `stochastic_block_model.py` does on line 163; every yield then stays inside its two clusters and the graph | not executed | NaiveSbm.DirectedOffsetOverrun | NaiveSbm.EdgesExactly |
