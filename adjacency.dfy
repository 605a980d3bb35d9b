/**
 * The adjacency matrix that sbm_adjmat fills from the yielded edges: entry
 * [u, v] for every edge (u, v) and, in an undirected graph, entry [v, u] as
 * well. The sparse container is modelled as an n x n boolean array.
 */
module Adjacency {

  /** A pair (u, v) of global vertex indices. */
  type Edge = (nat, nat)

  /** The entries one yielded edge sets. */
  function Written(e: Edge, directed: bool): set<Edge> {
    if directed then {e} else {e, (e.1, e.0)}
  }

  /** The entries a stream of yielded edges sets, in total. */
  function Entries(edges: seq<Edge>, directed: bool): set<Edge> {
    if edges == [] then {}
    else Entries(edges[..|edges| - 1], directed) + Written(edges[|edges| - 1], directed)
  }

  /** An entry is set exactly when some yielded edge is that entry or, undirected, its mirror image. */
  lemma {:induction false} EntriesExactly(edges: seq<Edge>, directed: bool, a: nat, b: nat)
    ensures (a, b) in Entries(edges, directed) <==>
      exists t :: 0 <= t < |edges| && (edges[t] == (a, b) || (!directed && edges[t] == (b, a)))
  {
    if edges != [] {
      var last := |edges| - 1;
      EntriesExactly(edges[..last], directed, a, b);
      if (a, b) in Entries(edges[..last], directed) {
        var t :| 0 <= t < last && (edges[..last][t] == (a, b) || (!directed && edges[..last][t] == (b, a)));
        assert edges[t] == edges[..last][t];
      }
      if exists t :: 0 <= t < |edges| && (edges[t] == (a, b) || (!directed && edges[t] == (b, a))) {
        var t :| 0 <= t < |edges| && (edges[t] == (a, b) || (!directed && edges[t] == (b, a)));
        if t < last {
          assert edges[..last][t] == edges[t];
        }
      }
    }
  }

  /** In an undirected graph the entries are symmetric. */
  lemma UndirectedEntriesSymmetric(edges: seq<Edge>, a: nat, b: nat)
    ensures (a, b) in Entries(edges, false) <==> (b, a) in Entries(edges, false)
  {
    EntriesExactly(edges, false, a, b);
    EntriesExactly(edges, false, b, a);
  }

  predicate InBounds(e: Edge, n: nat) {
    e.0 < n && e.1 < n
  }

  /** A finished matrix, or the position of the first edge whose index the n x n container refuses. */
  datatype BuildResult = Built(matrix: array2<bool>) | OutOfBounds(at: nat)

  /**
   * sbm_adjmat's writing loop: start from an all-zero n x n matrix, set
   * [u, v] for every edge and [v, u] too when undirected. An index of n or
   * more makes the container raise an index error, which ends the build.
   */
  method FillAdjacency(n: nat, edges: seq<Edge>, directed: bool) returns (r: BuildResult)
    ensures r.OutOfBounds? ==>
      r.at < |edges| && !InBounds(edges[r.at], n) && forall t :: 0 <= t < r.at ==> InBounds(edges[t], n)
    ensures r.Built? <==> forall t :: 0 <= t < |edges| ==> InBounds(edges[t], n)
    ensures r.Built? ==>
      && fresh(r.matrix) && r.matrix.Length0 == n && r.matrix.Length1 == n
      && forall a, b :: 0 <= a < n && 0 <= b < n ==> (r.matrix[a, b] <==> (a, b) in Entries(edges, directed))
  {
    var adj := new bool[n, n]((_, _) => false);
    var i := 0;
    while i < |edges|
      invariant i <= |edges|
      invariant forall t :: 0 <= t < i ==> InBounds(edges[t], n)
      invariant forall a, b :: 0 <= a < n && 0 <= b < n ==> (adj[a, b] <==> (a, b) in Entries(edges[..i], directed))
    {
      var (u, v) := edges[i];
      if !(u < n && v < n) {
        return OutOfBounds(i);
      }
      adj[u, v] := true;
      if !directed {
        adj[v, u] := true;
      }
      assert edges[..i + 1][..i] == edges[..i];
      i := i + 1;
    }
    assert edges[..|edges|] == edges;
    return Built(adj);
  }
}
