/**
 * The PatchCore memory of the backend (backend/patchcore.py): row
 * normalisation, the coreset size, greedy k-center selection of coreset rows
 * and the nearest-neighbour distance query guard.
 *
 * Euclidean norms and distances are computed by numpy; the model receives
 * them as a square-root function and a distance function of row indices.
 */
module PatchCore {
  import opened Wrappers
  import opened Numeric

  /** The facts about numpy's square root the normalisation relies on. */
  ghost predicate IsSqrt(sqrt: real -> real)
  {
    forall x :: 0.0 <= x ==> 0.0 <= sqrt(x) && sqrt(x) * sqrt(x) == x
  }

  function SumSq(row: seq<real>): (r: real)
    ensures r >= 0.0
  {
    if row == [] then 0.0 else row[0] * row[0] + SumSq(row[1..])
  }

  /** The row divided by `c`: each entry times `c` gives the original back. */
  function Scale(row: seq<real>, c: real): (r: seq<real>)
    requires c > 0.0
    ensures |r| == |row| && forall j :: 0 <= j < |r| ==> r[j] * c == row[j]
  {
    seq(|row|, j requires 0 <= j < |row| => row[j] / c)
  }

  lemma {:induction false} SumSqScale(row: seq<real>, c: real)
    requires c > 0.0
    ensures SumSq(Scale(row, c)) * (c * c) == SumSq(row)
  {
    if row != [] {
      SumSqScale(row[1..], c);
      var scaled := Scale(row, c);
      assert scaled[1..] == Scale(row[1..], c);
      var x := row[0] / c;
      var t := SumSq(scaled[1..]);
      assert SumSq(scaled) == x * x + t;
      assert t * (c * c) == SumSq(row[1..]);
      assert x * c == row[0];
      assert (x * x) * (c * c) == row[0] * row[0];
      calc {
        SumSq(scaled) * (c * c);
        (x * x + t) * (c * c);
        (x * x) * (c * c) + t * (c * c);
        row[0] * row[0] + SumSq(row[1..]);
        SumSq(row);
      }
    }
  }

  /**
   * l2_normalize: each row divided by its Euclidean norm plus `eps`, which
   * keeps its direction. With a true square root every row of the result has
   * norm below 1.
   */
  function L2Normalize(x: seq<seq<real>>, sqrt: real -> real, eps: real): (r: seq<seq<real>>)
    requires eps > 0.0 && IsSqrt(sqrt)
    ensures |r| == |x|
    ensures forall i :: 0 <= i < |x| ==> |r[i]| == |x[i]| && SumSq(r[i]) < 1.0
    ensures forall i :: 0 <= i < |x| ==> r[i] == NormalizeRow(x[i], sqrt, eps)
  {
    seq(|x|, i requires 0 <= i < |x| => NormalizeRow(x[i], sqrt, eps))
  }

  /** One row of l2_normalize: the row times 1/(‖row‖ + eps). */
  function NormalizeRow(row: seq<real>, sqrt: real -> real, eps: real): (r: seq<real>)
    requires eps > 0.0 && IsSqrt(sqrt)
    ensures |r| == |row| && SumSq(r) < 1.0
    ensures forall j :: 0 <= j < |r| ==> r[j] * (sqrt(SumSq(row)) + eps) == row[j]
  {
    var s := SumSq(row);
    var c := sqrt(s) + eps;
    SumSqScale(row, c);
    NormBelowOne(s, sqrt(s), eps, SumSq(Scale(row, c)));
    Scale(row, c)
  }

  lemma NormBelowOne(s: real, q: real, eps: real, t: real)
    requires s >= 0.0 && q >= 0.0 && q * q == s && eps > 0.0 && t >= 0.0
    requires t * ((q + eps) * (q + eps)) == s
    ensures t < 1.0
  {
    var c2 := (q + eps) * (q + eps);
    assert c2 == s + eps * (2.0 * q + eps);
    assert eps * (2.0 * q + eps) > 0.0;
    assert t * c2 == s;
    assert s < c2;
    BelowOneFactor(t, c2);
  }

  lemma BelowOneFactor(t: real, c: real)
    requires c > 0.0 && t * c < c
    ensures t < 1.0
  {
  }

  /** The number of coreset rows `build` asks for: max(1, ceil(n * rate)). */
  function CoresetTarget(n: nat, rate: real): (m: int)
    ensures m >= 1
    ensures m as real >= n as real * rate
    ensures m > 1 ==> m as real - 1.0 < n as real * rate
  {
    MaxInt(1, Ceil(n as real * rate))
  }

  /** Distance from row `j` to its nearest center among `centers` (numpy's running minimum). */
  function DistToSet(dist: (nat, nat) -> real, centers: seq<nat>, j: nat): real
    requires |centers| > 0
  {
    if |centers| == 1 then dist(j, centers[0])
    else MinReal(DistToSet(dist, centers[..|centers| - 1], j), dist(j, centers[|centers| - 1]))
  }

  function DistVector(dist: (nat, nat) -> real, centers: seq<nat>, n: nat): (d: seq<real>)
    requires |centers| > 0
    ensures |d| == n
  {
    seq(n, j requires 0 <= j < n => DistToSet(dist, centers, j))
  }

  /** numpy.argmax: the first index holding the largest value. */
  function FirstArgMax(d: seq<real>): (i: nat)
    requires |d| > 0
    ensures i < |d|
    ensures forall j :: 0 <= j < |d| ==> d[j] <= d[i]
    ensures forall j :: 0 <= j < i ==> d[j] < d[i]
  {
    if |d| == 1 then 0
    else
      var k := FirstArgMax(d[..|d| - 1]);
      if d[|d| - 1] > d[k] then |d| - 1 else k
  }

  function Range(n: nat): (r: seq<nat>)
    ensures |r| == n && forall k :: 0 <= k < n ==> r[k] == k
  {
    seq(n, k requires 0 <= k < n => k)
  }

  /** Adding a center never increases any row's distance to the center set. */
  lemma DistToSetShrinks(dist: (nat, nat) -> real, centers: seq<nat>, c: nat, j: nat)
    requires |centers| > 0
    ensures DistToSet(dist, centers + [c], j) <= DistToSet(dist, centers, j)
    ensures DistToSet(dist, centers + [c], j) <= dist(j, c)
  {
    assert (centers + [c])[..|centers|] == centers;
  }

  /** The k-center selection the greedy loop performs, stated center by center. */
  predicate IsGreedyChoice(dist: (nat, nat) -> real, n: nat, c0: nat, centers: seq<nat>)
  {
    |centers| > 0 && centers[0] == c0 && n > 0
    && (forall t :: 0 <= t < |centers| ==> centers[t] < n)
    && (forall t :: 1 <= t < |centers| ==> centers[t] == FirstArgMax(DistVector(dist, centers[..t], n)))
  }

  /**
   * kcenter_greedy: when m >= n every row is kept; otherwise it starts from the
   * random row `c0` (rng.integers(0, n)) and adds, m - 1 times, the first row
   * farthest from the centers chosen so far.
   */
  method KCenterGreedy(n: nat, m: int, c0: nat, dist: (nat, nat) -> real) returns (centers: seq<nat>)
    requires m < n ==> c0 < n
    ensures m >= n ==> centers == Range(n)
    ensures m < n ==> |centers| == MaxInt(m, 1) && IsGreedyChoice(dist, n, c0, centers)
  {
    if m >= n {
      return Range(n);
    }
    centers := [c0];
    var d := seq(n, j requires 0 <= j < n => dist(j, c0));
    var k := 1;
    while k < m
      invariant 1 <= k <= MaxInt(m, 1) && |centers| == k
      invariant IsGreedyChoice(dist, n, c0, centers)
      invariant d == DistVector(dist, centers, n)
    {
      var i := FirstArgMax(d);
      GreedyStep(dist, n, c0, centers, i);
      centers := centers + [i];
      d := seq(n, j requires 0 <= j < n => MinReal(d[j], dist(j, i)));
      k := k + 1;
    }
  }

  /** Appending the first farthest row keeps the greedy description and updates the distances by a pointwise minimum. */
  lemma GreedyStep(dist: (nat, nat) -> real, n: nat, c0: nat, centers: seq<nat>, i: nat)
    requires IsGreedyChoice(dist, n, c0, centers)
    requires i == FirstArgMax(DistVector(dist, centers, n))
    ensures IsGreedyChoice(dist, n, c0, centers + [i])
    ensures DistVector(dist, centers + [i], n)
            == seq(n, j requires 0 <= j < n => MinReal(DistVector(dist, centers, n)[j], dist(j, i)))
  {
    var c := centers + [i];
    assert c[..|centers|] == centers;
    forall t | 1 <= t < |c|
      ensures c[t] == FirstArgMax(DistVector(dist, c[..t], n))
    {
      if t < |centers| {
        assert c[..t] == centers[..t];
      }
    }
  }

  /** Each greedy step leaves every row's distance no larger than before. */
  lemma GreedyDistancesNeverIncrease(dist: (nat, nat) -> real, n: nat, centers: seq<nat>, k: nat, j: nat)
    requires 1 <= k < |centers| && j < n
    ensures DistVector(dist, centers[..k + 1], n)[j] <= DistVector(dist, centers[..k], n)[j]
  {
    assert centers[..k + 1] == centers[..k] + [centers[k]];
    DistToSetShrinks(dist, centers[..k], centers[k], j);
  }

  /** A fitted memory: a FAISS index over the coreset, or the sklearn fallback, or (unfitted) neither. */
  datatype Memory = Memory(emb: seq<seq<real>>, hasIndex: bool, hasNn: bool, coresetRate: Option<real>)

  /** The PatchCoreMemory constructor: without an index it fits the sklearn neighbour search. */
  function NewMemory(emb: seq<seq<real>>, hasIndex: bool, coresetRate: Option<real>): (mem: Memory)
    ensures mem.hasIndex || mem.hasNn
  {
    Memory(emb, hasIndex, !hasIndex, coresetRate)
  }

  /**
   * PatchCoreMemory.build: the embeddings l2-normalised, the greedy coreset
   * of max(1, ceil(n * rate)) rows (every row when that is n or more) chosen
   * by Euclidean distance between normalised rows, and a memory over those
   * rows, with a FAISS index when FAISS is installed.
   */
  method BuildCoreset(E: seq<seq<real>>, rate: real, c0: nat, sqrt: real -> real, eps: real, hasFaiss: bool)
    returns (idx: seq<nat>, mem: Memory)
    requires eps > 0.0 && IsSqrt(sqrt)
    requires CoresetTarget(|E|, rate) < |E| ==> c0 < |E|
    ensures |mem.emb| == |idx| == MinInt(CoresetTarget(|E|, rate), |E|)
    ensures |E| > 0 ==> |mem.emb| >= 1
    ensures forall k :: 0 <= k < |idx| ==> idx[k] < |E| && mem.emb[k] == L2Normalize(E, sqrt, eps)[idx[k]]
    ensures CoresetTarget(|E|, rate) >= |E| ==> idx == Range(|E|)
    ensures CoresetTarget(|E|, rate) < |E| ==>
              IsGreedyChoice(RowDist(L2Normalize(E, sqrt, eps), sqrt), |E|, c0, idx)
    ensures mem == NewMemory(mem.emb, hasFaiss, Some(rate))
  {
    var En := L2Normalize(E, sqrt, eps);
    var m := CoresetTarget(|E|, rate);
    idx := KCenterGreedy(|E|, m, c0, RowDist(En, sqrt));
    var C := seq(|idx|, k requires 0 <= k < |idx| => if idx[k] < |En| then En[idx[k]] else []);
    mem := NewMemory(C, hasFaiss, Some(rate));
  }

  /** np.linalg.norm(E - E[c], axis=1): the Euclidean distance between rows j and c. */
  function RowDist(En: seq<seq<real>>, sqrt: real -> real): (nat, nat) -> real
  {
    (j: nat, c: nat) => if j < |En| && c < |En| && |En[j]| == |En[c]| then sqrt(SqDist(En[j], En[c])) else 0.0
  }

  /** The squared Euclidean distance between two rows of the same width. */
  function SqDist(a: seq<real>, b: seq<real>): (r: real)
    requires |a| == |b|
    ensures r >= 0.0
  {
    if a == [] then 0.0 else (a[0] - b[0]) * (a[0] - b[0]) + SqDist(a[1..], b[1..])
  }

  lemma {:induction false} SqDistToItself(a: seq<real>)
    ensures SqDist(a, a) == 0.0
  {
    if a != [] {
      SqDistToItself(a[1..]);
    }
  }

  /** Every row has width `w`. */
  predicate Width(rows: seq<seq<real>>, w: nat)
  {
    forall j :: 0 <= j < |rows| ==> |rows[j]| == w
  }

  /**
   * The squared distance from `q` to its nearest row: what the exact
   * searches (a flat L2 index and sklearn's one-neighbour search) find
   * (NearestSqDistIsMin).
   */
  function NearestSqDist(q: seq<real>, rows: seq<seq<real>>): (r: real)
    requires |rows| > 0 && Width(rows, |q|)
    ensures r >= 0.0
  {
    if |rows| == 1 then SqDist(q, rows[0])
    else MinReal(NearestSqDist(q, rows[..|rows| - 1]), SqDist(q, rows[|rows| - 1]))
  }

  /** NearestSqDist is the smallest squared distance from `q` to a row. */
  lemma {:induction false} NearestSqDistIsMin(q: seq<real>, rows: seq<seq<real>>)
    requires |rows| > 0 && Width(rows, |q|)
    ensures forall j :: 0 <= j < |rows| ==> NearestSqDist(q, rows) <= SqDist(q, rows[j])
    ensures exists j :: 0 <= j < |rows| && NearestSqDist(q, rows) == SqDist(q, rows[j])
  {
    if |rows| > 1 {
      var init := rows[..|rows| - 1];
      NearestSqDistIsMin(q, init);
      assert forall j :: 0 <= j < |init| ==> init[j] == rows[j];
      forall j | 0 <= j < |rows| ensures NearestSqDist(q, rows) <= SqDist(q, rows[j]) {
        if j < |init| {
          assert SqDist(q, init[j]) == SqDist(q, rows[j]);
        }
      }
      var j :| 0 <= j < |init| && NearestSqDist(q, init) == SqDist(q, init[j]);
      if NearestSqDist(q, rows) != SqDist(q, rows[|rows| - 1]) {
        assert NearestSqDist(q, rows) == SqDist(q, rows[j]);
      }
    } else {
      assert NearestSqDist(q, rows) == SqDist(q, rows[0]);
    }
  }

  datatype KnnError = NotFitted

  /**
   * knn_min_dist: the query rows are l2-normalised; it fails when neither
   * search structure exists; otherwise each row's distance to its nearest
   * memory row, as sqrt(max(D, 0)) of the index's squared distance or as
   * sklearn's distance.
   */
  function KnnMinDist(mem: Memory, query: seq<seq<real>>, dim: nat, sqrt: real -> real, eps: real): (r: Result<seq<real>, KnnError>)
    requires IsSqrt(sqrt) && eps > 0.0
    requires |mem.emb| > 0 && Width(mem.emb, dim) && Width(query, dim)
    ensures r.Failure? <==> !mem.hasIndex && !mem.hasNn
    ensures r.Success? ==>
              |r.value| == |query|
              && forall i :: 0 <= i < |query| ==>
                   r.value[i] >= 0.0
                   && r.value[i] * r.value[i] == NearestSqDist(L2Normalize(query, sqrt, eps)[i], mem.emb)
  {
    NormalizedWidth(query, dim, sqrt, eps);
    if !mem.hasIndex && !mem.hasNn then Failure(NotFitted)
    else
      var d := Search(mem, L2Normalize(query, sqrt, eps), dim, sqrt);
      Success(d)
  }

  /** The search the memory has, the index first, over rows already normalised. */
  function Search(mem: Memory, Q: seq<seq<real>>, dim: nat, sqrt: real -> real): (d: seq<real>)
    requires IsSqrt(sqrt) && (mem.hasIndex || mem.hasNn)
    requires |mem.emb| > 0 && Width(mem.emb, dim) && Width(Q, dim)
    ensures |d| == |Q| && forall i :: 0 <= i < |Q| ==> d[i] >= 0.0 && d[i] * d[i] == NearestSqDist(Q[i], mem.emb)
  {
    if mem.hasIndex then IndexSearch(Q, mem.emb, dim, sqrt) else SklearnSearch(Q, mem.emb, dim, sqrt)
  }

  /** Normalising keeps the width of every row. */
  lemma NormalizedWidth(x: seq<seq<real>>, w: nat, sqrt: real -> real, eps: real)
    requires eps > 0.0 && IsSqrt(sqrt) && Width(x, w)
    ensures Width(L2Normalize(x, sqrt, eps), w)
  {
  }

  /** IndexFlatL2.search(Q, 1) then sqrt(max(D[:, 0], 0)). */
  function IndexSearch(Q: seq<seq<real>>, emb: seq<seq<real>>, dim: nat, sqrt: real -> real): (d: seq<real>)
    requires IsSqrt(sqrt)
    requires |emb| > 0 && Width(emb, dim) && Width(Q, dim)
    ensures |d| == |Q| && forall i :: 0 <= i < |Q| ==> d[i] >= 0.0 && d[i] * d[i] == NearestSqDist(Q[i], emb)
  {
    seq(|Q|, i requires 0 <= i < |Q| => SqrtNonNegative(NearestSqDist(Q[i], emb), sqrt))
  }

  /** NearestNeighbors.kneighbors(Q, 1): the Euclidean distance to the nearest row. */
  function SklearnSearch(Q: seq<seq<real>>, emb: seq<seq<real>>, dim: nat, sqrt: real -> real): (d: seq<real>)
    requires IsSqrt(sqrt)
    requires |emb| > 0 && Width(emb, dim) && Width(Q, dim)
    ensures |d| == |Q| && forall i :: 0 <= i < |Q| ==> d[i] >= 0.0 && d[i] * d[i] == NearestSqDist(Q[i], emb)
  {
    seq(|Q|, i requires 0 <= i < |Q| => Root(NearestSqDist(Q[i], emb), sqrt))
  }

  /** numpy.sqrt(numpy.maximum(x, 0.0)). */
  function SqrtNonNegative(x: real, sqrt: real -> real): (r: real)
    requires IsSqrt(sqrt)
    ensures r >= 0.0 && (x >= 0.0 ==> r * r == x)
  {
    Root(MaxReal(x, 0.0), sqrt)
  }

  /** The square root of a non-negative value. */
  function Root(x: real, sqrt: real -> real): (r: real)
    requires IsSqrt(sqrt) && x >= 0.0
    ensures r >= 0.0 && r * r == x
  {
    sqrt(x)
  }

  /** A memory made by the constructor (and so by build) always answers distance queries. */
  lemma ConstructedMemoryIsFitted(emb: seq<seq<real>>, hasIndex: bool, rate: Option<real>,
                                  query: seq<seq<real>>, dim: nat, sqrt: real -> real, eps: real)
    requires IsSqrt(sqrt) && eps > 0.0
    requires |emb| > 0 && Width(emb, dim) && Width(query, dim)
    ensures KnnMinDist(NewMemory(emb, hasIndex, rate), query, dim, sqrt, eps).Success?
  {
  }

  /** The FAISS path and the sklearn path report the same distances. */
  lemma SearchPathsAgree(emb: seq<seq<real>>, rate: Option<real>, query: seq<seq<real>>, dim: nat, sqrt: real -> real, eps: real)
    requires IsSqrt(sqrt) && eps > 0.0
    requires |emb| > 0 && Width(emb, dim) && Width(query, dim)
    ensures KnnMinDist(NewMemory(emb, true, rate), query, dim, sqrt, eps) == KnnMinDist(NewMemory(emb, false, rate), query, dim, sqrt, eps)
  {
    var Q := L2Normalize(query, sqrt, eps);
    var a := KnnMinDist(NewMemory(emb, true, rate), query, dim, sqrt, eps).value;
    var b := KnnMinDist(NewMemory(emb, false, rate), query, dim, sqrt, eps).value;
    forall i | 0 <= i < |Q| ensures a[i] == b[i] {
      assert MaxReal(NearestSqDist(Q[i], emb), 0.0) == NearestSqDist(Q[i], emb);
    }
    assert a == b;
  }

  /**
   * A training row that the coreset kept is at distance 0 from the memory
   * when it is queried again: the query is normalised like the training rows.
   */
  lemma KeptRowScoresZero(E: seq<seq<real>>, w: nat, idx: seq<nat>, mem: Memory, sqrt: real -> real, eps: real, k: nat)
    requires IsSqrt(sqrt) && eps > 0.0
    requires Width(E, w) && |mem.emb| > 0 && Width(mem.emb, w)
    requires mem.hasIndex || mem.hasNn
    requires k < |idx| == |mem.emb|
    requires forall t :: 0 <= t < |idx| ==> idx[t] < |E| && mem.emb[t] == L2Normalize(E, sqrt, eps)[idx[t]]
    ensures KnnMinDist(mem, E, w, sqrt, eps).value[idx[k]] == 0.0
  {
    var Q := L2Normalize(E, sqrt, eps);
    var i := idx[k];
    NormalizedWidth(E, w, sqrt, eps);
    NearestToOwnRowIsZero(Q[i], mem.emb, k);
    ZeroDistance(mem, E, w, sqrt, eps, i);
  }

  /** A query row at squared distance 0 from the memory is reported at distance 0. */
  lemma ZeroDistance(mem: Memory, query: seq<seq<real>>, dim: nat, sqrt: real -> real, eps: real, i: nat)
    requires IsSqrt(sqrt) && eps > 0.0
    requires |mem.emb| > 0 && Width(mem.emb, dim) && Width(query, dim)
    requires mem.hasIndex || mem.hasNn
    requires i < |query| && Width(L2Normalize(query, sqrt, eps), dim)
    requires NearestSqDist(L2Normalize(query, sqrt, eps)[i], mem.emb) == 0.0
    ensures KnnMinDist(mem, query, dim, sqrt, eps).value[i] == 0.0
  {
    ZeroSquare(KnnMinDist(mem, query, dim, sqrt, eps).value[i]);
  }

  /** A query that is itself one of the rows is at squared distance 0 from them. */
  lemma NearestToOwnRowIsZero(q: seq<real>, rows: seq<seq<real>>, k: nat)
    requires k < |rows| && Width(rows, |q|) && rows[k] == q
    ensures NearestSqDist(q, rows) == 0.0
  {
    SqDistToItself(q);
    NearestSqDistIsMin(q, rows);
  }

  /** The only non-negative real whose square is 0 is 0. */
  lemma ZeroSquare(d: real)
    requires d >= 0.0 && d * d == 0.0
    ensures d == 0.0
  {
    if d > 0.0 {
      calc {
        0.0;
      ==
        d * d;
      >
        0.0;
      }
    }
  }
}
