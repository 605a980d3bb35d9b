/**
 * Counting the candidate vertex pairs between two clusters, and the rank
 * decoding that numbers those candidates 0 .. count-1.
 *
 * A "local pair" (u, v) names vertex u of the first cluster and vertex v of
 * the second one, both counted from 0 inside their cluster.
 */
module EdgeIndex {

  type LocalPair = (nat, nat)

  /** Lexicographic order on local pairs: the order the candidate lists are written in. */
  predicate LexLess(p: LocalPair, q: LocalPair) {
    p.0 < q.0 || (p.0 == q.0 && p.1 < q.1)
  }

  // ---------------------------------------------------------------------
  // Arithmetic helpers
  // ---------------------------------------------------------------------

  lemma MulMonotone(a: nat, b: nat, d: nat)
    requires a <= b
    ensures a * d <= b * d
  {
    assert b * d == a * d + (b - a) * d;
  }

  /** Division and remainder of q*d + m by d, for a remainder m already below d. */
  lemma DivModOf(q: nat, d: nat, m: nat)
    requires m < d
    ensures (q * d + m) / d == q && (q * d + m) % d == m
  {
    var r := q * d + m;
    var q', m' := r / d, r % d;
    assert r == q' * d + m';
    if q' < q {
      MulMonotone(q' + 1, q, d);
      assert false;
    } else if q' > q {
      MulMonotone(q + 1, q', d);
      assert false;
    }
  }

  /** A rank below rows*cols has a quotient by cols below rows. */
  lemma QuotientBelow(r: nat, rows: nat, cols: nat)
    requires cols > 0 && r < rows * cols
    ensures r / cols < rows
  {
    if r / cols >= rows {
      MulMonotone(rows, r / cols, cols);
      assert false;
    }
  }

  // ---------------------------------------------------------------------
  // Triangular numbers and the integer triangular root
  // ---------------------------------------------------------------------

  /** Tri(t) = t(t-1)/2, the number of pairs (u, v) with v < u < t. */
  function Tri(t: nat): nat {
    if t == 0 then 0 else Tri(t - 1) + (t - 1)
  }

  lemma {:induction false} TriTimesTwo(t: nat)
    ensures 2 * Tri(t) == t * (t - 1)
  {
    if t > 0 {
      TriTimesTwo(t - 1);
      assert (t - 1) * (t - 2) + 2 * (t - 1) == t * (t - 1);
    }
  }

  lemma {:induction false} TriMonotone(s: nat, t: nat)
    requires s <= t
    ensures Tri(s) <= Tri(t)
  {
    if s < t {
      TriMonotone(s, t - 1);
    }
  }

  /**
   * The largest t with t(t-1)/2 <= r: what the source computes as
   * floor((1 + sqrt(1 + 8r)) / 2) in floating point.
   */
  function TriRoot(r: nat): (t: nat)
    ensures 1 <= t
    ensures Tri(t) <= r < Tri(t + 1)
  {
    if r == 0 then 1
    else
      var s := TriRoot(r - 1);
      if Tri(s + 1) <= r then s + 1 else s
  }

  /** Any t that brackets r between consecutive triangular numbers is TriRoot(r). */
  lemma TriRootUnique(r: nat, t: nat)
    requires Tri(t) <= r < Tri(t + 1)
    ensures t == TriRoot(r)
  {
    var s := TriRoot(r);
    if t < s {
      TriMonotone(t + 1, s);
      assert false;
    } else if s < t {
      TriMonotone(s + 1, t);
      assert false;
    }
  }

  /**
   * TriRoot(r) is the floor of the real root (1 + sqrt(1 + 8r)) / 2 that the
   * source evaluates: t <= (1 + sqrt(1+8r))/2 < t + 1, squared out.
   */
  lemma TriRootIsQuadraticFloor(r: nat)
    ensures var t := TriRoot(r);
      (2 * t - 1) * (2 * t - 1) <= 1 + 8 * r < (2 * t + 1) * (2 * t + 1)
  {
    var t := TriRoot(r);
    TriTimesTwo(t);
    TriTimesTwo(t + 1);
    OddSquares(t);
  }

  lemma OddSquares(t: int)
    ensures (2 * t - 1) * (2 * t - 1) == 4 * (t * (t - 1)) + 1
    ensures (2 * t + 1) * (2 * t + 1) == 4 * ((t + 1) * t) + 1
  {
  }

  // ---------------------------------------------------------------------
  // Number of possible edges (_get_num_pos_edges)
  // ---------------------------------------------------------------------

  /** The number of candidate vertex pairs between two clusters, computed step by step as the source does. */
  function NumPosEdges(c1Size: nat, c2Size: nat, sameCluster: bool, selfLoops: bool, directed: bool): (count: nat)
    ensures (sameCluster ==> c1Size == c2Size) ==> count <= c1Size * c2Size
  {
    if !sameCluster then c1Size * c2Size
    else
      PairsBelowIsTri(c1Size);
      TriPlusSquare(c1Size);
      var base := c1Size * (c1Size - 1) / 2;
      var withLoops := if selfLoops then base + c1Size else base;
      var doubled := if directed then withLoops * 2 else withLoops;
      if directed && selfLoops then doubled - c1Size else doubled
  }

  /** The pairs of an n x n block are the strict lower triangle twice over plus the diagonal. */
  lemma TriPlusSquare(n: nat)
    ensures 2 * Tri(n) + n == n * n
  {
    TriTimesTwo(n);
    assert n * (n - 1) + n == n * n;
  }

  lemma PairsBelowIsTri(n: nat)
    ensures n * (n - 1) / 2 == Tri(n)
  {
    TriTimesTwo(n);
  }

  /** The counts the source promises for each combination of flags (n = the cluster's size when the clusters are the same). */
  lemma NumPosEdgesClosedForm(c1Size: nat, c2Size: nat, sameCluster: bool, selfLoops: bool, directed: bool)
    ensures var count := NumPosEdges(c1Size, c2Size, sameCluster, selfLoops, directed);
      var n := c1Size;
      && (!sameCluster ==> count == c1Size * c2Size)
      && (sameCluster && !directed && !selfLoops ==> 2 * count == n * (n - 1))
      && (sameCluster && !directed && selfLoops ==> 2 * count == n * (n + 1))
      && (sameCluster && directed && !selfLoops ==> count == n * (n - 1))
      && (sameCluster && directed && selfLoops ==> count == n * n)
  {
    var n: int := c1Size;
    PairsBelowIsTri(c1Size);
    TriTimesTwo(c1Size);
    assert n * (n + 1) == n * (n - 1) + 2 * n;
    assert n * n == n * (n - 1) + n;
  }

  /** The examples worked out by hand for clusters of sizes 5 and 3, and for one cluster of size 5. */
  lemma NumPosEdgesExamples()
    ensures forall loops: bool, directed: bool :: NumPosEdges(5, 3, false, loops, directed) == 15
    ensures NumPosEdges(5, 5, true, false, false) == 10
    ensures NumPosEdges(5, 5, true, true, false) == 15
    ensures NumPosEdges(5, 5, true, false, true) == 20
    ensures NumPosEdges(5, 5, true, true, true) == 25
  {
  }

  // ---------------------------------------------------------------------
  // The candidate pairs, and their numbering
  // ---------------------------------------------------------------------

  /**
   * The candidate local pairs between two clusters. Between different
   * clusters (and inside one cluster when directed with self-loops) every
   * pair; directed without self-loops every off-diagonal pair; undirected
   * only the lower triangle (v <= u, or v < u without self-loops), so that
   * each unordered pair is counted once.
   */
  predicate IsCandidate(c1Size: nat, c2Size: nat, sameCluster: bool, selfLoops: bool, directed: bool, p: LocalPair) {
    var (u, v) := p;
    if !sameCluster then u < c1Size && v < c2Size
    else if directed then u < c1Size && v < c1Size && (selfLoops || u != v)
    else if selfLoops then v <= u < c1Size
    else v < u < c1Size
  }

  /** Row-major numbering: rows of length cols. */
  function DecodeRowMajor(r: nat, cols: nat): (p: LocalPair)
    requires cols > 0
    ensures p.1 < cols && p.0 * cols + p.1 == r
  {
    (r / cols, r % cols)
  }

  function EncodeRowMajor(p: LocalPair, cols: nat): nat {
    p.0 * cols + p.1
  }

  lemma RowMajorRoundTrip(p: LocalPair, rows: nat, cols: nat)
    requires p.0 < rows && p.1 < cols
    ensures EncodeRowMajor(p, cols) < rows * cols
    ensures DecodeRowMajor(EncodeRowMajor(p, cols), cols) == p
  {
    MulMonotone(p.0 + 1, rows, cols);
    DivModOf(p.0, cols, p.1);
  }

  lemma RowMajorIncreasing(p: LocalPair, q: LocalPair, cols: nat)
    requires p.1 < cols && q.1 < cols && LexLess(p, q)
    ensures EncodeRowMajor(p, cols) < EncodeRowMajor(q, cols)
  {
    if p.0 < q.0 {
      MulMonotone(p.0 + 1, q.0, cols);
    }
  }

  /** Row-major numbering of an n x n block with the diagonal skipped: rows of length n - 1. */
  function DecodeOffDiagonal(r: nat, n: nat): (p: LocalPair)
    requires n >= 2
    ensures p.0 != p.1 && p.1 < n
  {
    var (u, w) := DecodeRowMajor(r, n - 1);
    if w >= u then (u, w + 1) else (u, w)
  }

  function EncodeOffDiagonal(p: LocalPair, n: nat): nat
    requires n >= 1
  {
    EncodeRowMajor((p.0, if p.1 > p.0 then p.1 - 1 else p.1), n - 1)
  }

  lemma OffDiagonalRoundTrip(p: LocalPair, n: nat)
    requires p.0 < n && p.1 < n && p.0 != p.1
    ensures EncodeOffDiagonal(p, n) < n * (n - 1)
    ensures DecodeOffDiagonal(EncodeOffDiagonal(p, n), n) == p
  {
    var w := if p.1 > p.0 then p.1 - 1 else p.1;
    RowMajorRoundTrip((p.0, w), n, n - 1);
  }

  lemma OffDiagonalDecodeInRange(r: nat, n: nat)
    requires n >= 2 && r < n * (n - 1)
    ensures DecodeOffDiagonal(r, n).0 < n
    ensures EncodeOffDiagonal(DecodeOffDiagonal(r, n), n) == r
  {
    QuotientBelow(r, n, n - 1);
  }

  /** Triangular numbering with the diagonal: (0,0), (1,0), (1,1), (2,0), ... */
  function DecodeLowerTriangle(r: nat): (p: LocalPair)
    ensures p.1 <= p.0
  {
    var t := TriRoot(r);
    (t - 1, r - Tri(t))
  }

  function EncodeLowerTriangle(p: LocalPair): nat {
    Tri(p.0 + 1) + p.1
  }

  lemma LowerTriangleRoundTrip(p: LocalPair, n: nat)
    requires p.1 <= p.0 < n
    ensures EncodeLowerTriangle(p) < Tri(n + 1)
    ensures DecodeLowerTriangle(EncodeLowerTriangle(p)) == p
  {
    TriMonotone(p.0 + 2, n + 1);
    TriRootUnique(EncodeLowerTriangle(p), p.0 + 1);
  }

  lemma LowerTriangleDecodeInRange(r: nat, n: nat)
    requires r < Tri(n + 1)
    ensures DecodeLowerTriangle(r).0 < n
    ensures EncodeLowerTriangle(DecodeLowerTriangle(r)) == r
  {
    var t := TriRoot(r);
    if t > n {
      TriMonotone(n + 1, t);
      assert false;
    }
  }

  /** Triangular numbering without the diagonal: (1,0), (2,0), (2,1), (3,0), ... */
  function DecodeStrictLower(r: nat): (p: LocalPair)
    ensures p.1 < p.0
  {
    var t := TriRoot(r);
    (t, r - Tri(t))
  }

  function EncodeStrictLower(p: LocalPair): nat {
    Tri(p.0) + p.1
  }

  lemma StrictLowerRoundTrip(p: LocalPair, n: nat)
    requires p.1 < p.0 < n
    ensures EncodeStrictLower(p) < Tri(n)
    ensures DecodeStrictLower(EncodeStrictLower(p)) == p
  {
    TriMonotone(p.0 + 1, n);
    TriRootUnique(EncodeStrictLower(p), p.0);
  }

  lemma StrictLowerDecodeInRange(r: nat, n: nat)
    requires r < Tri(n)
    ensures DecodeStrictLower(r).0 < n
    ensures EncodeStrictLower(DecodeStrictLower(r)) == r
  {
    var t := TriRoot(r);
    if t >= n {
      TriMonotone(n, t);
      assert false;
    }
  }

  /** The four numberings, and which flags select each of them. */
  datatype Scheme = RowMajor | OffDiagonal | LowerTriangle | StrictLower

  function SchemeOf(sameCluster: bool, selfLoops: bool, directed: bool): Scheme {
    if !sameCluster || (directed && selfLoops) then RowMajor
    else if directed then OffDiagonal
    else if selfLoops then LowerTriangle
    else StrictLower
  }

  /** Counts in the form each numbering needs: a product, or a triangular number. */
  lemma CountByScheme(c1Size: nat, c2Size: nat, sameCluster: bool, selfLoops: bool, directed: bool)
    requires sameCluster ==> c1Size == c2Size
    ensures var count := NumPosEdges(c1Size, c2Size, sameCluster, selfLoops, directed);
      match SchemeOf(sameCluster, selfLoops, directed)
      case RowMajor => count == c1Size * c2Size
      case OffDiagonal => count == c1Size * (c1Size - 1)
      case LowerTriangle => count == Tri(c1Size + 1)
      case StrictLower => count == Tri(c1Size)
  {
    NumPosEdgesClosedForm(c1Size, c2Size, sameCluster, selfLoops, directed);
    TriTimesTwo(c1Size);
    TriTimesTwo(c1Size + 1);
  }

  /** _get_edge_from_sample_num, with the row-major branch reducing modulo the row length c2Size. */
  function Decode(r: nat, c1Size: nat, c2Size: nat, sameCluster: bool, selfLoops: bool, directed: bool): (p: LocalPair)
    requires sameCluster ==> c1Size == c2Size
    requires r < NumPosEdges(c1Size, c2Size, sameCluster, selfLoops, directed)
    ensures IsCandidate(c1Size, c2Size, sameCluster, selfLoops, directed, p)
  {
    CountByScheme(c1Size, c2Size, sameCluster, selfLoops, directed);
    match SchemeOf(sameCluster, selfLoops, directed)
    case RowMajor => QuotientBelow(r, c1Size, c2Size); DecodeRowMajor(r, c2Size)
    case OffDiagonal => OffDiagonalDecodeInRange(r, c1Size); DecodeOffDiagonal(r, c1Size)
    case LowerTriangle => LowerTriangleDecodeInRange(r, c1Size); DecodeLowerTriangle(r)
    case StrictLower => StrictLowerDecodeInRange(r, c1Size); DecodeStrictLower(r)
  }

  /** The inverse numbering: the rank of a candidate pair. */
  function Encode(c1Size: nat, c2Size: nat, sameCluster: bool, selfLoops: bool, directed: bool, p: LocalPair): nat
    requires IsCandidate(c1Size, c2Size, sameCluster, selfLoops, directed, p)
  {
    match SchemeOf(sameCluster, selfLoops, directed)
    case RowMajor => EncodeRowMajor(p, c2Size)
    case OffDiagonal => assert p.0 < c1Size; EncodeOffDiagonal(p, c1Size)
    case LowerTriangle => EncodeLowerTriangle(p)
    case StrictLower => EncodeStrictLower(p)
  }

  /** Every rank below the count decodes to a candidate pair, and encoding that pair gives the rank back. */
  lemma DecodeIsCandidate(r: nat, c1Size: nat, c2Size: nat, sameCluster: bool, selfLoops: bool, directed: bool)
    requires sameCluster ==> c1Size == c2Size
    requires r < NumPosEdges(c1Size, c2Size, sameCluster, selfLoops, directed)
    ensures var p := Decode(r, c1Size, c2Size, sameCluster, selfLoops, directed);
      IsCandidate(c1Size, c2Size, sameCluster, selfLoops, directed, p)
      && Encode(c1Size, c2Size, sameCluster, selfLoops, directed, p) == r
  {
    CountByScheme(c1Size, c2Size, sameCluster, selfLoops, directed);
    match SchemeOf(sameCluster, selfLoops, directed)
    case RowMajor => QuotientBelow(r, c1Size, c2Size);
    case OffDiagonal => OffDiagonalDecodeInRange(r, c1Size);
    case LowerTriangle => LowerTriangleDecodeInRange(r, c1Size);
    case StrictLower => StrictLowerDecodeInRange(r, c1Size);
  }

  /** Every candidate pair has a rank below the count, and decoding that rank gives the pair back. */
  lemma EncodeIsRank(c1Size: nat, c2Size: nat, sameCluster: bool, selfLoops: bool, directed: bool, p: LocalPair)
    requires sameCluster ==> c1Size == c2Size
    requires IsCandidate(c1Size, c2Size, sameCluster, selfLoops, directed, p)
    ensures var r := Encode(c1Size, c2Size, sameCluster, selfLoops, directed, p);
      r < NumPosEdges(c1Size, c2Size, sameCluster, selfLoops, directed)
      && Decode(r, c1Size, c2Size, sameCluster, selfLoops, directed) == p
  {
    CountByScheme(c1Size, c2Size, sameCluster, selfLoops, directed);
    match SchemeOf(sameCluster, selfLoops, directed)
    case RowMajor => RowMajorRoundTrip(p, c1Size, c2Size);
    case OffDiagonal => OffDiagonalRoundTrip(p, c1Size);
    case LowerTriangle => LowerTriangleRoundTrip(p, c1Size);
    case StrictLower => StrictLowerRoundTrip(p, c1Size);
  }

  /** The numbering lists the candidates in lexicographic order. */
  lemma EncodeIncreasing(c1Size: nat, c2Size: nat, sameCluster: bool, selfLoops: bool, directed: bool, p: LocalPair, q: LocalPair)
    requires sameCluster ==> c1Size == c2Size
    requires IsCandidate(c1Size, c2Size, sameCluster, selfLoops, directed, p)
    requires IsCandidate(c1Size, c2Size, sameCluster, selfLoops, directed, q)
    requires LexLess(p, q)
    ensures Encode(c1Size, c2Size, sameCluster, selfLoops, directed, p) < Encode(c1Size, c2Size, sameCluster, selfLoops, directed, q)
  {
    match SchemeOf(sameCluster, selfLoops, directed)
    case RowMajor =>
      RowMajorIncreasing(p, q, c2Size);
    case OffDiagonal =>
      var p' := (p.0, if p.1 > p.0 then p.1 - 1 else p.1);
      var q' := (q.0, if q.1 > q.0 then q.1 - 1 else q.1);
      RowMajorIncreasing(p', q', c1Size - 1);
    case LowerTriangle =>
      if p.0 < q.0 {
        TriMonotone(p.0 + 2, q.0 + 1);
      }
    case StrictLower =>
      if p.0 < q.0 {
        TriMonotone(p.0 + 1, q.0);
      }
  }

  /** Increasing ranks decode to lexicographically increasing pairs: the enumeration order of the source's candidate lists. */
  lemma DecodeIncreasing(r1: nat, r2: nat, c1Size: nat, c2Size: nat, sameCluster: bool, selfLoops: bool, directed: bool)
    requires sameCluster ==> c1Size == c2Size
    requires r1 < r2 < NumPosEdges(c1Size, c2Size, sameCluster, selfLoops, directed)
    ensures LexLess(Decode(r1, c1Size, c2Size, sameCluster, selfLoops, directed),
                    Decode(r2, c1Size, c2Size, sameCluster, selfLoops, directed))
  {
    var p := Decode(r1, c1Size, c2Size, sameCluster, selfLoops, directed);
    var q := Decode(r2, c1Size, c2Size, sameCluster, selfLoops, directed);
    DecodeIsCandidate(r1, c1Size, c2Size, sameCluster, selfLoops, directed);
    DecodeIsCandidate(r2, c1Size, c2Size, sameCluster, selfLoops, directed);
    if !LexLess(p, q) && p != q {
      EncodeIncreasing(c1Size, c2Size, sameCluster, selfLoops, directed, q, p);
    }
  }

  /** The first ranks of the two triangular numberings, as the hand-written candidate lists give them. */
  lemma TriangularExamples()
    ensures DecodeLowerTriangle(0) == (0, 0) && DecodeLowerTriangle(1) == (1, 0) && DecodeLowerTriangle(2) == (1, 1)
    ensures DecodeLowerTriangle(3) == (2, 0) && DecodeLowerTriangle(5) == (2, 2) && DecodeLowerTriangle(6) == (3, 0)
    ensures DecodeStrictLower(0) == (1, 0) && DecodeStrictLower(1) == (2, 0) && DecodeStrictLower(2) == (2, 1)
    ensures DecodeStrictLower(3) == (3, 0) && DecodeStrictLower(5) == (3, 2) && DecodeStrictLower(6) == (4, 0)
  {
  }

  // ---------------------------------------------------------------------
  // The row-major branch as the source writes it
  // ---------------------------------------------------------------------

  /**
   * _get_edge_from_sample_num as written: the row-major branch takes the
   * remainder modulo c1Size although the rows have length c2Size.
   */
  function DecodeAsWritten(r: nat, c1Size: nat, c2Size: nat, sameCluster: bool, selfLoops: bool, directed: bool): (p: LocalPair)
    requires sameCluster ==> c1Size == c2Size
    requires r < NumPosEdges(c1Size, c2Size, sameCluster, selfLoops, directed)
    ensures c1Size == c2Size ==> p == Decode(r, c1Size, c2Size, sameCluster, selfLoops, directed)
  {
    if !sameCluster || (directed && selfLoops) then
      CountByScheme(c1Size, c2Size, sameCluster, selfLoops, directed);
      (r / c2Size, r % c1Size)
    else Decode(r, c1Size, c2Size, sameCluster, selfLoops, directed)
  }

  /** Clusters of sizes 5 and 3: rank 4 is in range, but the source decodes it to (1, 4), outside the 5 x 3 block. */
  lemma DecodeAsWrittenLeavesBlock()
    ensures 4 < NumPosEdges(5, 3, false, false, false)
    ensures DecodeAsWritten(4, 5, 3, false, false, false) == (1, 4)
    ensures !IsCandidate(5, 3, false, false, false, (1, 4))
    ensures Decode(4, 5, 3, false, false, false) == (1, 1)
  {
  }
}
