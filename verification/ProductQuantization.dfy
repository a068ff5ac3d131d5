/**
 The product quantizer of benches/phase3_benchmarks.rs over the reals. Distances are squared: the
 code takes one square root at the end, which changes no comparison.
 */
module ProductQuantization {

  type Vector = seq<real>
  type Codebook = seq<Vector>

  function Square(x: real): (r: real)
    ensures r >= 0.0
  {
    x * x
  }

  /** `zip` stops at the shorter vector. */
  function SquaredDistance(a: Vector, b: Vector): (r: real)
    ensures r >= 0.0
  {
    if a == [] || b == [] then 0.0 else Square(a[0] - b[0]) + SquaredDistance(a[1..], b[1..])
  }

  function Scaled(t: real, v: Vector): (r: Vector)
    ensures |r| == |v| && forall i :: 0 <= i < |v| ==> r[i] == t * v[i]
  {
    seq(|v|, i requires 0 <= i < |v| => t * v[i])
  }

  lemma ScaledTail(t: real, v: Vector)
    requires v != []
    ensures Scaled(t, v)[1..] == Scaled(t, v[1..])
  {
    var tail := v[1..];
    forall i | 0 <= i < |tail| ensures Scaled(t, v)[1..][i] == Scaled(t, tail)[i] {
      assert tail[i] == v[i + 1];
    }
  }

  function Times(q: real, x: real): (r: real) {
    q * x
  }

  lemma SquareScales(t: real, x: real, y: real, tx: real, ty: real)
    requires tx == t * x && ty == t * y
    ensures Square(tx - ty) == Times(Square(t), Square(x - y))
  {
    var u := x - y;
    assert tx - ty == t * u;
    assert (t * u) * (t * u) == (t * t) * (u * u);
  }

  lemma TimesSum(q: real, x: real, y: real)
    ensures Times(q, x) + Times(q, y) == Times(q, x + y) && Times(q, 0.0) == 0.0
  {
  }

  lemma {:induction false} TailScales(t: real, q: real, a: Vector, b: Vector)
    requires q == Square(t)
    ensures SquaredDistance(Scaled(t, a), Scaled(t, b)) == Times(q, SquaredDistance(a, b))
  {
    TimesSum(q, 0.0, 0.0);
    if a != [] && b != [] {
      var ta, tb := Scaled(t, a), Scaled(t, b);
      TailScales(t, q, a[1..], b[1..]);
      ScaledTail(t, a);
      ScaledTail(t, b);
      SquareScales(t, a[0], b[0], ta[0], tb[0]);
      TimesSum(q, Square(a[0] - b[0]), SquaredDistance(a[1..], b[1..]));
    }
  }

  /** It is a squared distance: it grows with the square of the scale, and a unit step has length one. */
  lemma DistanceScales(t: real, a: Vector, b: Vector)
    ensures SquaredDistance(Scaled(t, a), Scaled(t, b)) == t * t * SquaredDistance(a, b)
    ensures SquaredDistance([1.0], [0.0]) == 1.0
  {
    TailScales(t, Square(t), a, b);
    assert Square(1.0 - 0.0) == 1.0 && [1.0][1..] == [] && [0.0][1..] == [];
  }

  /** The part of a vector that subspace `j` sees. */
  function Slice(v: Vector, j: nat, subdim: nat): (s: Vector)
    requires |v| >= (j + 1) * subdim
    ensures |s| == subdim
  {
    assert (j + 1) * subdim == j * subdim + subdim;
    v[j * subdim..j * subdim + subdim]
  }

  predicate Shaped(books: seq<Codebook>, k: nat, subdim: nat) {
    forall j :: 0 <= j < |books| ==>
      |books[j]| == k && forall c :: 0 <= c < k ==> |books[j][c]| == subdim
  }

  /** One in-range code for each codebook. */
  predicate InRange(codes: seq<nat>, m: nat, k: nat) {
    |codes| == m && forall j :: 0 <= j < m ==> codes[j] < k
  }

  /** The vector the first `n` codes stand for. */
  function Reconstruct(books: seq<Codebook>, codes: seq<nat>, n: nat): (v: Vector)
    requires n <= |codes| <= |books|
    requires forall j :: 0 <= j < |codes| ==> codes[j] < |books[j]|
  {
    if n == 0 then [] else Reconstruct(books, codes, n - 1) + books[n - 1][codes[n - 1]]
  }

  /** The distances from one part of the query to the centroids of its codebook. */
  function TableRow(book: Codebook, part: Vector): (row: seq<real>)
    ensures |row| == |book| && forall c :: 0 <= c < |book| ==> row[c] == SquaredDistance(part, book[c])
  {
    seq(|book|, c requires 0 <= c < |book| => SquaredDistance(part, book[c]))
  }

  function DistanceTable(books: seq<Codebook>, query: Vector, subdim: nat): (t: seq<seq<real>>)
    requires |query| >= |books| * subdim
    ensures |t| == |books|
    ensures forall j :: 0 <= j < |books| ==>
              SliceFits(query, j, |books|, subdim) && t[j] == TableRow(books[j], Slice(query, j, subdim))
  {
    seq(|books|, j requires 0 <= j < |books| =>
      assert SliceFits(query, j, |books|, subdim);
      TableRow(books[j], Slice(query, j, subdim)))
  }

  /** Subspace `j` of `m` lies within the vector. */
  predicate SliceFits(v: Vector, j: int, m: nat, subdim: nat)
    requires 0 <= j < m && |v| >= m * subdim
    ensures SliceFits(v, j, m, subdim)
  {
    MultiplyMonotone(j + 1, m, subdim);
    |v| >= (j + 1) * subdim
  }

  lemma MultiplyMonotone(a: nat, b: nat, c: nat)
    requires a <= b
    ensures a * c <= b * c
  {
  }

  /** The sum of the first `n` looked-up entries. */
  function TableSum(table: seq<seq<real>>, codes: seq<nat>, n: nat): (r: real)
    requires n <= |codes| <= |table|
    requires forall j :: 0 <= j < |codes| ==> codes[j] < |table[j]|
  {
    if n == 0 then 0.0 else TableSum(table, codes, n - 1) + table[n - 1][codes[n - 1]]
  }

  // ---------------------------------------------------------------------------------------------
  // Table lookup is vector distance
  // ---------------------------------------------------------------------------------------------

  lemma {:induction false} DistanceSplits(a: Vector, a': Vector, b: Vector, b': Vector)
    requires |a| == |b|
    ensures SquaredDistance(a + a', b + b') == SquaredDistance(a, b) + SquaredDistance(a', b')
  {
    if a == [] {
      assert a + a' == a' && b + b' == b';
    } else {
      assert (a + a')[1..] == a[1..] + a' && (b + b')[1..] == b[1..] + b';
      DistanceSplits(a[1..], a', b[1..], b');
    }
  }

  lemma {:induction false} DistanceIgnoresTail(a: Vector, b: Vector)
    requires |a| >= |b|
    ensures SquaredDistance(a, b) == SquaredDistance(a[..|b|], b)
  {
    if b != [] {
      DistanceIgnoresTail(a[1..], b[1..]);
      assert a[..|b|][1..] == a[1..][..|b| - 1];
    }
  }

  lemma {:induction false} ReconstructLength(books: seq<Codebook>, codes: seq<nat>, n: nat, k: nat, subdim: nat)
    requires Shaped(books, k, subdim) && InRange(codes, |books|, k) && n <= |books|
    ensures |Reconstruct(books, codes, n)| == n * subdim
  {
    if n > 0 {
      ReconstructLength(books, codes, n - 1, k, subdim);
      assert n * subdim == (n - 1) * subdim + subdim;
    }
  }

  lemma AppendSlice(query: Vector, subdim: nat, v: Vector, centroid: Vector)
    requires |v| + subdim <= |query| && |centroid| == subdim
    ensures SquaredDistance(query, v + centroid) ==
            SquaredDistance(query, v) + SquaredDistance(query[|v|..|v| + subdim], centroid)
  {
    var head, rest := query[..|v|], query[|v|..];
    DistanceIgnoresTail(query, v);
    DistanceIgnoresTail(rest, centroid);
    DistanceSplits(head, rest, v, centroid);
    assert query == head + rest && rest[..subdim] == query[|v|..|v| + subdim];
  }

  lemma TableEntry(books: seq<Codebook>, query: Vector, subdim: nat, j: nat, c: nat, start: nat)
    requires |query| >= |books| * subdim && j < |books| && c < |books[j]| && start == j * subdim
    ensures start + subdim <= |query|
    ensures DistanceTable(books, query, subdim)[j][c] == SquaredDistance(query[start..start + subdim], books[j][c])
  {
    assert SliceFits(query, j, |books|, subdim);
  }

  lemma {:induction false} PrefixTableSum(
    books: seq<Codebook>, query: Vector, codes: seq<nat>, n: nat, k: nat, subdim: nat)
    requires Shaped(books, k, subdim) && InRange(codes, |books|, k) && n <= |books|
    requires |query| >= |books| * subdim
    ensures TableSum(DistanceTable(books, query, subdim), codes, n) ==
            SquaredDistance(query, Reconstruct(books, codes, n))
  {
    if n > 0 {
      var j := n - 1;
      var v := Reconstruct(books, codes, j);
      PrefixTableSum(books, query, codes, j, k, subdim);
      ReconstructLength(books, codes, j, k, subdim);
      TableEntry(books, query, subdim, j, codes[j], |v|);
      AppendSlice(query, subdim, v, books[j][codes[j]]);
    }
  }

  /**
   For any codes, the summed lookups in the table of a query are the squared distance from the query
   to the vector those codes reconstruct.
   */
  lemma TableSumIsDistance(books: seq<Codebook>, query: Vector, codes: seq<nat>, k: nat, subdim: nat)
    requires Shaped(books, k, subdim) && InRange(codes, |books|, k)
    requires |query| >= |books| * subdim
    ensures TableSum(DistanceTable(books, query, subdim), codes, |codes|) ==
            SquaredDistance(query, Reconstruct(books, codes, |codes|))
  {
    PrefixTableSum(books, query, codes, |codes|, k, subdim);
  }

  // ---------------------------------------------------------------------------------------------
  // Encoding is globally optimal
  // ---------------------------------------------------------------------------------------------

  /** The first of the nearest among the first `n` centroids, as `min_by` finds it. */
  function NearestOf(v: Vector, centroids: Codebook, n: nat): (best: nat)
    requires 0 < n <= |centroids|
    ensures best < n
    ensures forall c :: 0 <= c < n ==>
              SquaredDistance(v, centroids[best]) <= SquaredDistance(v, centroids[c])
    ensures forall c :: 0 <= c < best ==>
              SquaredDistance(v, centroids[best]) < SquaredDistance(v, centroids[c])
  {
    if n == 1 then 0
    else
      var best := NearestOf(v, centroids, n - 1);
      if SquaredDistance(v, centroids[n - 1]) < SquaredDistance(v, centroids[best]) then n - 1 else best
  }

  function FindNearestCentroid(v: Vector, centroids: Codebook): (best: nat)
    requires centroids != []
    ensures best < |centroids|
  {
    NearestOf(v, centroids, |centroids|)
  }

  /** `index as u8` */
  function AsU8(n: nat): (b: nat)
    ensures b < 256 && b <= n
  {
    n % 256
  }

  function Encoded(books: seq<Codebook>, v: Vector, k: nat, subdim: nat): (codes: seq<nat>)
    requires k > 0 && Shaped(books, k, subdim) && |v| >= |books| * subdim
    ensures InRange(codes, |books|, k)
    ensures forall j :: 0 <= j < |books| ==>
              SliceFits(v, j, |books|, subdim) &&
              codes[j] == AsU8(FindNearestCentroid(Slice(v, j, subdim), books[j]))
  {
    seq(|books|, j requires 0 <= j < |books| =>
      assert SliceFits(v, j, |books|, subdim);
      AsU8(FindNearestCentroid(Slice(v, j, subdim), books[j])))
  }

  /** No other codes reconstruct to anything nearer. */
  ghost predicate Optimal(books: seq<Codebook>, v: Vector, codes: seq<nat>, k: nat)
    requires InRange(codes, |books|, k) && forall j :: 0 <= j < |books| ==> |books[j]| == k
  {
    forall other: seq<nat> :: InRange(other, |books|, k) ==>
      SquaredDistance(v, Reconstruct(books, codes, |codes|)) <= SquaredDistance(v, Reconstruct(books, other, |other|))
  }

  lemma {:induction false} PointwiseLeastSum(table: seq<seq<real>>, codes: seq<nat>, other: seq<nat>, n: nat)
    requires n <= |codes| == |other| <= |table|
    requires forall j :: 0 <= j < |codes| ==> codes[j] < |table[j]| && other[j] < |table[j]|
    requires forall j :: 0 <= j < |codes| ==> table[j][codes[j]] <= table[j][other[j]]
    ensures TableSum(table, codes, n) <= TableSum(table, other, n)
  {
    if n > 0 {
      PointwiseLeastSum(table, codes, other, n - 1);
    }
  }

  /** The entry of the chosen code is the least of its row. */
  lemma EncodedEntryIsLeast(books: seq<Codebook>, v: Vector, k: nat, subdim: nat, j: nat, c: nat)
    requires 0 < k <= 256 && Shaped(books, k, subdim) && |v| >= |books| * subdim
    requires j < |books| && c < k
    ensures var row := DistanceTable(books, v, subdim)[j];
            row[Encoded(books, v, k, subdim)[j]] <= row[c]
  {
    assert SliceFits(v, j, |books|, subdim);
    assert Encoded(books, v, k, subdim)[j] == FindNearestCentroid(Slice(v, j, subdim), books[j]);
  }

  /** Lookups of the chosen codes sum to no more than those of any other codes. */
  lemma EncodedSumIsLeast(books: seq<Codebook>, v: Vector, k: nat, subdim: nat, other: seq<nat>)
    requires 0 < k <= 256 && Shaped(books, k, subdim) && |v| >= |books| * subdim
    requires InRange(other, |books|, k)
    ensures var codes, table := Encoded(books, v, k, subdim), DistanceTable(books, v, subdim);
            TableSum(table, codes, |codes|) <= TableSum(table, other, |other|)
  {
    var codes, table := Encoded(books, v, k, subdim), DistanceTable(books, v, subdim);
    forall j | 0 <= j < |codes| ensures table[j][codes[j]] <= table[j][other[j]] {
      EncodedEntryIsLeast(books, v, k, subdim, j, other[j]);
    }
    PointwiseLeastSum(table, codes, other, |codes|);
  }

  lemma EncodeBeats(books: seq<Codebook>, v: Vector, k: nat, subdim: nat, other: seq<nat>)
    requires 0 < k <= 256 && Shaped(books, k, subdim) && |v| >= |books| * subdim
    requires InRange(other, |books|, k)
    ensures var codes := Encoded(books, v, k, subdim);
            SquaredDistance(v, Reconstruct(books, codes, |codes|)) <=
            SquaredDistance(v, Reconstruct(books, other, |other|))
  {
    EncodedSumIsLeast(books, v, k, subdim, other);
    TableSumIsDistance(books, v, Encoded(books, v, k, subdim), k, subdim);
    TableSumIsDistance(books, v, other, k, subdim);
  }

  /** With at most 256 centroids, choosing per subspace is choosing best among all combinations. */
  lemma EncodeIsOptimal(books: seq<Codebook>, v: Vector, k: nat, subdim: nat)
    requires 0 < k <= 256 && Shaped(books, k, subdim) && |v| >= |books| * subdim
    ensures Optimal(books, v, Encoded(books, v, k, subdim), k)
  {
    forall other: seq<nat> | InRange(other, |books|, k)
      ensures var codes := Encoded(books, v, k, subdim);
              SquaredDistance(v, Reconstruct(books, codes, |codes|)) <=
              SquaredDistance(v, Reconstruct(books, other, |other|))
    {
      EncodeBeats(books, v, k, subdim, other);
    }
  }

  function Constant(x: real, n: nat): (v: Vector)
    ensures |v| == n && forall i :: 0 <= i < n ==> v[i] == x
  {
    seq(n, _ => x)
  }

  lemma {:induction false} Coincide(a: Vector, b: Vector)
    requires |a| <= |b| && forall i :: 0 <= i < |a| ==> a[i] == b[i]
    ensures SquaredDistance(a, b) == 0.0
  {
    if a != [] {
      Coincide(a[1..], b[1..]);
    }
  }

  lemma {:induction false} ApartByOne(a: Vector, b: Vector)
    requires |a| <= |b| && forall i :: 0 <= i < |a| ==> a[i] == 0.0 && b[i] == 1.0
    ensures SquaredDistance(a, b) == |a| as real
  {
    if a != [] {
      ApartByOne(a[1..], b[1..]);
    }
  }

  /** A codebook on which the byte-sized code of the one good centroid, number 256, wraps to 0. */
  function WrappingBook(k: nat, subdim: nat): (book: Codebook)
    ensures |book| == k
    ensures forall c :: 0 <= c < k ==> book[c] == Constant(if c == 256 then 0.0 else 1.0, subdim)
  {
    seq(k, c => Constant(if c == 256 then 0.0 else 1.0, subdim))
  }

  function WrappingBooks(m: nat, k: nat, subdim: nat): (books: seq<Codebook>)
    ensures |books| == m && Shaped(books, k, subdim)
    ensures forall j :: 0 <= j < m ==> books[j] == WrappingBook(k, subdim)
  {
    seq(m, _ => WrappingBook(k, subdim))
  }

  lemma WrappingBookIsNearestAt256(slice: Vector, k: nat, subdim: nat)
    requires subdim > 0 && k > 256 && |slice| == subdim
    requires forall i :: 0 <= i < |slice| ==> slice[i] == 0.0
    ensures FindNearestCentroid(slice, WrappingBook(k, subdim)) == 256
  {
    var book := WrappingBook(k, subdim);
    Coincide(slice, book[256]);
    forall c | 0 <= c < k && c != 256 ensures SquaredDistance(slice, book[c]) > 0.0 {
      ApartByOne(slice, book[c]);
    }
  }

  lemma {:induction false} ConstantReconstruction(books: seq<Codebook>, codes: seq<nat>, n: nat, x: real, subdim: nat)
    requires n <= |codes| <= |books|
    requires forall j :: 0 <= j < |codes| ==> codes[j] < |books[j]| && books[j][codes[j]] == Constant(x, subdim)
    ensures var v := Reconstruct(books, codes, n);
            |v| == n * subdim && forall i :: 0 <= i < |v| ==> v[i] == x
  {
    if n > 0 {
      ConstantReconstruction(books, codes, n - 1, x, subdim);
      assert n * subdim == (n - 1) * subdim + subdim;
    }
  }

  lemma WrappedCodesAreZero(m: nat, k: nat, subdim: nat, j: nat)
    requires subdim > 0 && k > 256 && j < m
    ensures Encoded(WrappingBooks(m, k, subdim), Constant(0.0, m * subdim), k, subdim)[j] == 0
  {
    var v := Constant(0.0, m * subdim);
    assert SliceFits(v, j, m, subdim);
    WrappingBookIsNearestAt256(Slice(v, j, subdim), k, subdim);
  }

  lemma WrappedReconstruction(m: nat, k: nat, subdim: nat)
    requires subdim > 0 && k > 256
    ensures var books := WrappingBooks(m, k, subdim);
            var far := Reconstruct(books, Encoded(books, Constant(0.0, m * subdim), k, subdim), m);
            |far| == m * subdim && forall i :: 0 <= i < |far| ==> far[i] == 1.0
  {
    var books := WrappingBooks(m, k, subdim);
    var codes := Encoded(books, Constant(0.0, m * subdim), k, subdim);
    forall j | 0 <= j < m ensures codes[j] == 0 {
      WrappedCodesAreZero(m, k, subdim, j);
    }
    ConstantReconstruction(books, codes, m, 1.0, subdim);
  }

  lemma WrappedCodeIsNotOptimal(m: nat, k: nat, subdim: nat)
    requires m > 0 && subdim > 0 && k > 256
    ensures var books, v := WrappingBooks(m, k, subdim), Constant(0.0, m * subdim);
            !Optimal(books, v, Encoded(books, v, k, subdim), k)
  {
    var books, v := WrappingBooks(m, k, subdim), Constant(0.0, m * subdim);
    var better: seq<nat> := seq(m, _ => 256);
    WrappedReconstruction(m, k, subdim);
    ConstantReconstruction(books, better, m, 0.0, subdim);
    MultiplyMonotone(1, m, subdim);
    NearerExists(v, Reconstruct(books, Encoded(books, v, k, subdim), m), Reconstruct(books, better, m));
    assert InRange(better, m, k);
  }

  lemma NearerExists(v: Vector, far: Vector, near: Vector)
    requires |v| == |far| == |near| > 0
    requires forall i :: 0 <= i < |v| ==> v[i] == 0.0 && far[i] == 1.0 && near[i] == 0.0
    ensures SquaredDistance(v, near) < SquaredDistance(v, far)
  {
    Coincide(v, near);
    ApartByOne(v, far);
  }

  /**
   For a given shape, `encode` finds a globally nearest reconstruction on all codebooks and vectors
   exactly when a centroid index fits in the byte it is stored in.
   */
  lemma EncodeOptimalExactly(m: nat, k: nat, subdim: nat)
    requires m > 0 && subdim > 0 && k > 0
    ensures (forall books: seq<Codebook>, v: Vector ::
               |books| == m && Shaped(books, k, subdim) && |v| >= m * subdim ==>
               Optimal(books, v, Encoded(books, v, k, subdim), k))
            <==> k <= 256
  {
    if k <= 256 {
      forall books: seq<Codebook>, v: Vector | |books| == m && Shaped(books, k, subdim) && |v| >= m * subdim
        ensures Optimal(books, v, Encoded(books, v, k, subdim), k)
      {
        EncodeIsOptimal(books, v, k, subdim);
      }
    } else {
      WrappedCodeIsNotOptimal(m, k, subdim);
      assert |Constant(0.0, m * subdim)| >= m * subdim;
    }
  }

  // ---------------------------------------------------------------------------------------------
  // The quantizer object
  // ---------------------------------------------------------------------------------------------

  class ProductQuantizer {
    const dim: nat
    const numSubquantizers: nat
    const k: nat
    var codebooks: seq<Codebook>
    var distanceTables: seq<seq<real>>

    ghost predicate Valid()
      reads this
    {
      numSubquantizers > 0 && |codebooks| == numSubquantizers && Shaped(codebooks, k, Subdim())
    }

    function Subdim(): (s: nat)
      requires numSubquantizers > 0
      ensures numSubquantizers * s <= dim
    {
      dim / numSubquantizers
    }

    constructor (dim: nat, numSubquantizers: nat, k: nat)
      requires numSubquantizers > 0
      ensures Valid() && distanceTables == []
      ensures this.dim == dim && this.numSubquantizers == numSubquantizers && this.k == k
      ensures forall j, c :: 0 <= j < numSubquantizers && 0 <= c < k ==>
                codebooks[j][c] == Constant(0.0, dim / numSubquantizers)
    {
      this.dim, this.numSubquantizers, this.k := dim, numSubquantizers, k;
      codebooks := seq(numSubquantizers, _ => seq(k, _ => Constant(0.0, dim / numSubquantizers)));
      distanceTables := [];
    }

    /** `pick` stands for the random draws; every centroid becomes the matching slice of a training vector. */
    method Train(vectors: seq<Vector>, pick: (nat, nat) -> nat)
      requires Valid() && vectors != []
      requires forall i :: 0 <= i < |vectors| ==> |vectors[i]| >= numSubquantizers * Subdim()
      requires forall j, c :: pick(j, c) < |vectors|
      modifies this`codebooks
      ensures Valid()
      ensures forall j, c :: 0 <= j < numSubquantizers && 0 <= c < k ==>
                SliceFits(vectors[pick(j, c)], j, numSubquantizers, Subdim()) &&
                codebooks[j][c] == Slice(vectors[pick(j, c)], j, Subdim())
    {
      for j := 0 to numSubquantizers
        invariant Valid()
        invariant forall i, c :: 0 <= i < j && 0 <= c < k ==>
          SliceFits(vectors[pick(i, c)], i, numSubquantizers, Subdim()) &&
          codebooks[i][c] == Slice(vectors[pick(i, c)], i, Subdim())
      {
        var before := codebooks;
        for c := 0 to k
          invariant Valid()
          invariant forall i :: 0 <= i < j ==> codebooks[i] == before[i]
          invariant forall b :: 0 <= b < c ==>
            SliceFits(vectors[pick(j, b)], j, numSubquantizers, Subdim()) &&
            codebooks[j][b] == Slice(vectors[pick(j, b)], j, Subdim())
        {
          var idx := pick(j, c);
          assert SliceFits(vectors[idx], j, numSubquantizers, Subdim());
          codebooks := codebooks[j := codebooks[j][c := Slice(vectors[idx], j, Subdim())]];
        }
      }
    }

    method PrecomputeDistanceTable(query: Vector)
      requires Valid() && |query| >= numSubquantizers * Subdim()
      modifies this`distanceTables
      ensures distanceTables == DistanceTable(codebooks, query, Subdim())
    {
      distanceTables := DistanceTable(codebooks, query, Subdim());
    }

    /** The radicand of the code's result. */
    method ComputeDistanceWithTable(codes: seq<nat>) returns (squared: real)
      requires |codes| <= |distanceTables|
      requires forall j :: 0 <= j < |codes| ==> codes[j] < |distanceTables[j]|
      ensures squared == TableSum(distanceTables, codes, |codes|)
    {
      squared := 0.0;
      for j := 0 to |codes|
        invariant squared == TableSum(distanceTables, codes, j)
      {
        squared := squared + distanceTables[j][codes[j]];
      }
    }

    method Encode(v: Vector) returns (codes: seq<nat>)
      requires Valid() && k > 0 && |v| >= numSubquantizers * Subdim()
      ensures codes == Encoded(codebooks, v, k, Subdim())
      ensures k <= 256 ==> Optimal(codebooks, v, codes, k)
    {
      codes := Encoded(codebooks, v, k, Subdim());
      if k <= 256 {
        EncodeIsOptimal(codebooks, v, k, Subdim());
      }
    }

    /** The measured use: table for a query, then the distance to some codes. */
    method QueryDistance(query: Vector, codes: seq<nat>) returns (squared: real)
      requires Valid() && |query| >= numSubquantizers * Subdim() && InRange(codes, numSubquantizers, k)
      modifies this`distanceTables
      ensures squared == SquaredDistance(query, Reconstruct(codebooks, codes, |codes|))
    {
      PrecomputeDistanceTable(query);
      squared := ComputeDistanceWithTable(codes);
      TableSumIsDistance(codebooks, query, codes, k, Subdim());
    }
  }
}
