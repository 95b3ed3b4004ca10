/**
 Gauss-Jordan elimination without row exchanges, on a matrix of any size and any number of
 appended right-hand sides.  This is the textbook form of the unrolled kernels `binvcrhs` and
 `binvrhs`: a stage divides row `p` by its pivot and subtracts multiples of it from all other rows.
 */
module GaussJordan {
  import opened LinAlg

  function Stage(m: Mat, p: nat, w: nat): (r: Mat)
    requires IsMat(m, |m|, w) && p < |m| <= w
    ensures IsMat(r, |m|, w)
  {
    if m[p][p] == 0.0 then m
    else
      var pivot := 1.0 / m[p][p];
      seq(|m|, i requires 0 <= i < |m| =>
        seq(w, j requires 0 <= j < w =>
          if i == p then m[p][j] * pivot else m[i][j] - m[i][p] * (m[p][j] * pivot)))
  }

  /** The matrix after the first `k` stages. */
  function Reduce(m: Mat, k: nat, w: nat): (r: Mat)
    requires IsMat(m, |m|, w) && k <= |m| <= w
    ensures IsMat(r, |m|, w)
  {
    if k == 0 then m else Stage(Reduce(m, k - 1, w), k - 1, w)
  }

  /** The successive pivots that the elimination divides by. */
  predicate NonzeroPivots(m: Mat, k: nat, w: nat)
    requires IsMat(m, |m|, w) && k <= |m| <= w
  {
    forall p :: 0 <= p < k ==> Reduce(m, p, w)[p][p] != 0.0
  }

  /** `z` is annihilated by the first `k` rows. */
  ghost predicate Kernel(m: Mat, z: Vec, k: nat) {
    k <= |m| && forall i :: 0 <= i < k ==> |m[i]| == |z| && Dot(m[i], z) == 0.0
  }

  /** Column `j < k` is the unit vector with its one in row `j`. */
  ghost predicate UnitColumns(m: Mat, k: nat) {
    forall i, j :: 0 <= i < |m| && 0 <= j < k && j < |m[i]| ==> m[i][j] == Delta(i, j)
  }

  lemma {:induction false} PivotRow(m: Mat, p: nat, w: nat, z: Vec)
    requires IsMat(m, |m|, w) && p < |m| <= w && |z| == w && m[p][p] != 0.0
    ensures Dot(Stage(m, p, w)[p], z) == (1.0 / m[p][p]) * Dot(m[p], z)
  {
    var pivot := 1.0 / m[p][p];
    var r := Stage(m, p, w)[p];
    forall j | 0 <= j < w ensures r[j] == pivot * m[p][j] + 0.0 * m[p][j] {
      assert r[j] == m[p][j] * pivot;
    }
    DotLinear(r, pivot, m[p], 0.0, m[p], z, w);
  }

  lemma Regroup(x: real, f: real, y: real, pivot: real)
    ensures x - f * (y * pivot) == 1.0 * x + (-(f * pivot)) * y
  {
  }

  lemma {:induction false} OtherRow(m: Mat, p: nat, w: nat, z: Vec, i: nat)
    requires IsMat(m, |m|, w) && p < |m| <= w && |z| == w && i < |m| && i != p && m[p][p] != 0.0
    ensures Dot(Stage(m, p, w)[i], z) == Dot(m[i], z) - m[i][p] * (1.0 / m[p][p]) * Dot(m[p], z)
  {
    var pivot := 1.0 / m[p][p];
    var r := Stage(m, p, w)[i];
    var f := m[i][p] * pivot;
    forall j | 0 <= j < w ensures r[j] == 1.0 * m[i][j] + (-f) * m[p][j] {
      assert r[j] == m[i][j] - m[i][p] * (m[p][j] * pivot);
      Regroup(m[i][j], m[i][p], m[p][j], pivot);
    }
    DotLinear(r, 1.0, m[i], -f, m[p], z, w);
  }

  /** Row operations neither lose nor invent solutions. */
  lemma {:induction false} StageKeepsKernel(m: Mat, p: nat, w: nat, z: Vec, k: nat)
    requires IsMat(m, |m|, w) && p < k <= |m| <= w && |z| == w
    requires m[p][p] != 0.0
    ensures Kernel(m, z, k) <==> Kernel(Stage(m, p, w), z, k)
  {
    var s := Stage(m, p, w);
    var pivot := 1.0 / m[p][p];
    PivotRow(m, p, w, z);
    assert pivot != 0.0 by { assert pivot * m[p][p] == 1.0; }
    assert Dot(s[p], z) == 0.0 <==> Dot(m[p], z) == 0.0;
    forall i | 0 <= i < k && i != p && Dot(m[p], z) == 0.0
      ensures Dot(s[i], z) == Dot(m[i], z)
    {
      OtherRow(m, p, w, z, i);
    }
  }

  lemma {:induction false} StageUnitEntry(m: Mat, p: nat, w: nat, i: nat, j: nat)
    requires IsMat(m, |m|, w) && p < |m| <= w && i < |m| && j <= p
    requires m[p][p] != 0.0
    requires j < p ==> m[p][j] == 0.0 && m[i][j] == Delta(i, j)
    ensures Stage(m, p, w)[i][j] == Delta(i, j)
  {
    var pivot := 1.0 / m[p][p];
    if j < p {
      assert m[p][j] * pivot == 0.0;
    } else {
      assert m[p][j] * pivot == 1.0;
    }
  }

  lemma {:induction false} StageUnitColumns(m: Mat, p: nat, w: nat)
    requires IsMat(m, |m|, w) && p < |m| <= w
    requires m[p][p] != 0.0 && UnitColumns(m, p)
    ensures UnitColumns(Stage(m, p, w), p + 1)
  {
    var s := Stage(m, p, w);
    forall i, j | 0 <= i < |m| && 0 <= j <= p
      ensures s[i][j] == Delta(i, j)
    {
      if j < p {
        assert m[p][j] == Delta(p, j);
      }
      StageUnitEntry(m, p, w, i, j);
    }
  }

  /** What `k` stages with nonzero pivots achieve. */
  lemma {:induction false} ReduceSound(m: Mat, k: nat, w: nat, z: Vec, rows: nat)
    requires IsMat(m, |m|, w) && k <= rows <= |m| <= w && |z| == w
    requires NonzeroPivots(m, k, w)
    ensures UnitColumns(Reduce(m, k, w), k)
    ensures Kernel(m, z, rows) <==> Kernel(Reduce(m, k, w), z, rows)
  {
    if k > 0 {
      ReduceSound(m, k - 1, w, z, rows);
      var s := Reduce(m, k - 1, w);
      assert s[k - 1][k - 1] != 0.0 && Reduce(m, k, w) == Stage(s, k - 1, w);
      StageUnitColumns(s, k - 1, w);
      StageKeepsKernel(s, k - 1, w, z, rows);
    }
  }

  /** The first `n` rows agree in the first `c` columns. */
  ghost predicate SameLeading(m: Mat, m': Mat, c: nat, n: nat) {
    n == 0 || (SameLeading(m, m', c, n - 1) && n <= |m| && n <= |m'| && SameFront(m[n - 1], m'[n - 1], c))
  }

  ghost predicate SameFront(u: Vec, u': Vec, c: nat) {
    c <= |u| && c <= |u'| && forall j :: 0 <= j < c ==> u[j] == u'[j]
  }

  lemma {:induction false} SameLeadingAt(m: Mat, m': Mat, c: nat, n: nat, i: nat)
    requires SameLeading(m, m', c, n) && i < n
    ensures i < |m| && i < |m'| && SameFront(m[i], m'[i], c)
  {
    if i < n - 1 {
      SameLeadingAt(m, m', c, n - 1, i);
    }
  }

  lemma {:induction false} SameLeadingFrom(m: Mat, m': Mat, c: nat, n: nat)
    requires n <= |m| && n <= |m'| && forall i :: 0 <= i < n ==> SameFront(m[i], m'[i], c)
    ensures SameLeading(m, m', c, n)
  {
    if n > 0 {
      SameLeadingFrom(m, m', c, n - 1);
    }
  }

  lemma {:induction false} StageColumns(m: Mat, w: nat, m': Mat, w': nat, c: nat, p: nat)
    requires IsMat(m, |m|, w) && IsMat(m', |m|, w') && p < |m| <= c <= w && c <= w' && SameLeading(m, m', c, |m|)
    ensures SameLeading(Stage(m, p, w), Stage(m', p, w'), c, |m|)
  {
    var s, s' := Stage(m, p, w), Stage(m', p, w');
    SameLeadingAt(m, m', c, |m|, p);
    forall i | 0 <= i < |m| ensures SameFront(s[i], s'[i], c) {
      SameLeadingAt(m, m', c, |m|, i);
    }
    SameLeadingFrom(s, s', c, |m|);
  }

  /** The first `c` columns evolve on their own, whatever is appended to them. */
  lemma {:induction false} ReduceColumns(m: Mat, w: nat, m': Mat, w': nat, c: nat, k: nat)
    requires IsMat(m, |m|, w) && IsMat(m', |m|, w') && k <= |m| <= c <= w && c <= w' && SameLeading(m, m', c, |m|)
    ensures SameLeading(Reduce(m, k, w), Reduce(m', k, w'), c, |m|)
  {
    if k > 0 {
      ReduceColumns(m, w, m', w', c, k - 1);
      StageColumns(Reduce(m, k - 1, w), w, Reduce(m', k - 1, w'), w', c, k - 1);
    }
  }

  /** Stages after `j` leave the rows' entries of an already cleared identity alone. */
  lemma {:induction false} ReduceIdentity(n: nat, k: nat)
    requires k <= n
    ensures Reduce(Identity(n), k, n) == Identity(n)
  {
    if k > 0 {
      ReduceIdentity(n, k - 1);
      var e := Identity(n);
      var s := Stage(e, k - 1, n);
      forall i, j | 0 <= i < n && 0 <= j < n ensures s[i][j] == e[i][j] {
      }
      forall i | 0 <= i < n ensures s[i] == e[i] {
      }
    }
  }

  // ------------------------------------------------------------------ solving with B

  function Augment(b: Mat, r: Mat, w: nat): (m: Mat)
    requires IsMat(b, |b|, |b|) && IsMat(r, |b|, w)
    ensures IsMat(m, |b|, |b| + w)
  {
    seq(|b|, i requires 0 <= i < |b| => b[i] + r[i])
  }

  /** The appended columns after all stages. */
  function Solve(b: Mat, r: Mat, w: nat): (x: Mat)
    requires IsMat(b, |b|, |b|) && IsMat(r, |b|, w)
    ensures IsMat(x, |b|, w)
  {
    var n := |b|;
    var m := Reduce(Augment(b, r, w), n, n + w);
    seq(n, i requires 0 <= i < n => m[i][n..])
  }

  lemma {:induction false} DotAppend(u: Vec, v: Vec, u': Vec, v': Vec, k: nat)
    requires |u| == |v| && k <= |u'| && k <= |v'|
    ensures DotTo(u + u', v + v', |u| + k) == Dot(u, v) + DotTo(u', v', k)
  {
    if k == 0 {
      DotSame(u + u', v + v', u, v, |u|);
    } else {
      DotAppend(u, v, u', v', k - 1);
    }
  }

  /** `x` followed by minus the `j`-th unit vector: annihilated by `[B|R]` exactly if `B x == R_j`. */
  function Probe(x: Vec, j: nat, w: nat): (z: Vec)
    ensures |z| == |x| + w
  {
    x + seq(w, l => -Delta(l, j))
  }

  lemma {:induction false} ProbeRow(u: Vec, r: Vec, x: Vec, j: nat)
    requires |u| == |x| && j < |r|
    ensures Dot(u + r, Probe(x, j, |r|)) == Dot(u, x) - r[j]
  {
    var e := seq(|r|, l => -Delta(l, j));
    DotAppend(u, x, r, e, |r|);
    DotCommutes(r, e, |r|);
    DotPick(e, r, j, |r|);
  }

  lemma {:induction false} ProbeKernel(b: Mat, r: Mat, w: nat, x: Vec, j: nat)
    requires IsMat(b, |b|, |b|) && IsMat(r, |b|, w) && |x| == |b| && j < w
    ensures Kernel(Augment(b, r, w), Probe(x, j, w), |b|) <==> MatVec(b, x) == Col(r, j)
  {
    var m, z := Augment(b, r, w), Probe(x, j, w);
    forall i | 0 <= i < |b|
      ensures Dot(m[i], z) == MatVec(b, x)[i] - Col(r, j)[i]
    {
      ProbeRow(b[i], r[i], x, j);
    }
  }

  lemma {:induction false} AugmentColumns(b: Mat, r: Mat, w: nat, k: nat, i: nat)
    requires IsMat(b, |b|, |b|) && IsMat(r, |b|, w) && k <= |b| && i < |b|
    ensures SameFront(Reduce(b, k, |b|)[i], Reduce(Augment(b, r, w), k, |b| + w)[i], |b|)
  {
    var n, m := |b|, Augment(b, r, w);
    SameLeadingFrom(b, m, n, n);
    ReduceColumns(b, n, m, n + w, n, k);
    SameLeadingAt(Reduce(b, k, n), Reduce(m, k, n + w), n, n, i);
  }

  lemma {:induction false} AugmentPivots(b: Mat, r: Mat, w: nat)
    requires IsMat(b, |b|, |b|) && IsMat(r, |b|, w)
    ensures NonzeroPivots(b, |b|, |b|) <==> NonzeroPivots(Augment(b, r, w), |b|, |b| + w)
  {
    var n, m, v := |b|, Augment(b, r, w), |b| + w;
    forall p | 0 <= p < n ensures Reduce(m, p, v)[p][p] == Reduce(b, p, n)[p][p] {
      AugmentColumns(b, r, w, p, p);
    }
  }

  /** Once all stages are done, the probe reads off `x - Solve(b, r)_j`. */
  lemma {:induction false} SolvedRow(b: Mat, r: Mat, w: nat, x: Vec, j: nat, i: nat)
    requires IsMat(b, |b|, |b|) && IsMat(r, |b|, w) && |x| == |b| && j < w && i < |b|
    requires UnitColumns(Reduce(Augment(b, r, w), |b|, |b| + w), |b|)
    ensures Dot(Reduce(Augment(b, r, w), |b|, |b| + w)[i], Probe(x, j, w))
              == x[i] - Solve(b, r, w)[i][j]
  {
    var n := |b|;
    var d := Reduce(Augment(b, r, w), n, n + w);
    var u, s := d[i][..n], Solve(b, r, w)[i];
    assert d[i] == u + s;
    ProbeRow(u, s, x, j);
    DotPick(u, x, i, n);
  }

  /** Each column of `Solve(b, r)` is the one and only solution for the same column of `r`. */
  lemma {:induction false} SolveCorrect(b: Mat, r: Mat, w: nat, x: Vec, j: nat)
    requires IsMat(b, |b|, |b|) && IsMat(r, |b|, w) && |x| == |b| && j < w
    requires NonzeroPivots(b, |b|, |b|)
    ensures MatVec(b, x) == Col(r, j) <==> x == Col(Solve(b, r, w), j)
  {
    var n, m, z := |b|, Augment(b, r, w), Probe(x, j, w);
    AugmentPivots(b, r, w);
    ReduceSound(m, n, n + w, z, n);
    ProbeKernel(b, r, w, x, j);
    SolvedKernel(b, r, w, x, j);
  }

  lemma {:induction false} SolvedKernel(b: Mat, r: Mat, w: nat, x: Vec, j: nat)
    requires IsMat(b, |b|, |b|) && IsMat(r, |b|, w) && |x| == |b| && j < w
    requires UnitColumns(Reduce(Augment(b, r, w), |b|, |b| + w), |b|)
    ensures Kernel(Reduce(Augment(b, r, w), |b|, |b| + w), Probe(x, j, w), |b|) <==> x == Col(Solve(b, r, w), j)
  {
    var n, z, d, y := |b|, Probe(x, j, w), Reduce(Augment(b, r, w), |b|, |b| + w), Col(Solve(b, r, w), j);
    forall i | 0 <= i < n ensures Dot(d[i], z) == x[i] - y[i] {
      SolvedRow(b, r, w, x, j, i);
    }
  }

  /** The same, read as a matrix product: `b * Solve(b, r) == r`. */
  lemma {:induction false} SolveProduct(b: Mat, r: Mat, w: nat)
    requires IsMat(b, |b|, |b|) && IsMat(r, |b|, w)
    requires NonzeroPivots(b, |b|, |b|)
    ensures IsProduct(r, b, Solve(b, r, w), w)
  {
    var s := Solve(b, r, w);
    forall i, j | 0 <= i < |b| && 0 <= j < w
      ensures r[i][j] == Dot(b[i], Col(s, j))
    {
      SolveCorrect(b, r, w, Col(s, j), j);
      assert MatVec(b, Col(s, j))[i] == Col(r, j)[i];
    }
  }

  // ------------------------------------------------------------------ when the pivots are nonzero

  /** The leading `k` by `k` block of `m` annihilates only the zero vector. */
  ghost predicate LeadingInjective(m: Mat, k: nat)
    requires IsMat(m, |m|, |m|)
  {
    forall x: Vec :: |x| == |m| && (forall j :: k <= j < |x| ==> x[j] == 0.0) && Kernel(m, x, k)
      ==> forall j :: 0 <= j < k && j < |x| ==> x[j] == 0.0
  }

  lemma {:induction false} PivotsGiveInjective(m: Mat, k: nat, x: Vec)
    requires IsMat(m, |m|, |m|) && k <= |m| == |x|
    requires NonzeroPivots(m, k, |m|)
    requires forall j :: k <= j < |x| ==> x[j] == 0.0
    requires Kernel(m, x, k)
    ensures forall j :: 0 <= j < k ==> x[j] == 0.0
  {
    ReduceSound(m, k, |m|, x, k);
    var d := Reduce(m, k, |m|);
    forall i | 0 <= i < k ensures x[i] == 0.0 {
      DotTail(d[i], x, k, |m|);
      DotPick(d[i], x, i, k);
      assert Dot(d[i], x) == 0.0;
    }
  }

  /** The vector that shows a zero pivot: the reduced column, negated, above a one. */
  function Witness(t: Mat, p: nat): (x: Vec)
    requires IsMat(t, |t|, |t|) && p < |t|
    ensures |x| == |t|
  {
    seq(|t|, j requires 0 <= j < |t| => if j < p then -t[j][p] else Delta(j, p))
  }

  lemma {:induction false} WitnessRow(t: Mat, p: nat, i: nat)
    requires IsMat(t, |t|, |t|) && i <= p < |t| && UnitColumns(t, p) && t[p][p] == 0.0
    ensures Dot(t[i], Witness(t, p)) == 0.0
  {
    var u, x := t[i], Witness(t, p);
    DotTail(u, x, p + 1, |t|);
    DotPick(u, x, i, p);
    assert DotTo(u, x, p + 1) == DotTo(u, x, p) + u[p] * x[p];
    assert x[p] == 1.0;
    if i < p {
      assert u[i] == 1.0 && x[i] == -u[p];
    }
  }

  lemma {:induction false} ZeroPivotWitness(m: Mat, p: nat)
    requires IsMat(m, |m|, |m|) && p < |m|
    requires NonzeroPivots(m, p, |m|) && Reduce(m, p, |m|)[p][p] == 0.0
    ensures Kernel(m, Witness(Reduce(m, p, |m|), p), p + 1)
  {
    var t := Reduce(m, p, |m|);
    var x := Witness(t, p);
    ReduceSound(m, p, |m|, x, p + 1);
    forall i | 0 <= i <= p ensures Dot(t[i], x) == 0.0 {
      WitnessRow(t, p, i);
    }
  }

  lemma {:induction false} PivotsGiveLeading(m: Mat, k: nat)
    requires IsMat(m, |m|, |m|) && k <= |m| && NonzeroPivots(m, k, |m|)
    ensures LeadingInjective(m, k)
  {
    forall x: Vec | |x| == |m| && (forall j :: k <= j < |x| ==> x[j] == 0.0) && Kernel(m, x, k)
      ensures forall j :: 0 <= j < k && j < |x| ==> x[j] == 0.0
    {
      PivotsGiveInjective(m, k, x);
    }
  }

  lemma {:induction false} ZeroPivotBreaks(m: Mat, p: nat)
    requires IsMat(m, |m|, |m|) && p < |m|
    requires NonzeroPivots(m, p, |m|) && Reduce(m, p, |m|)[p][p] == 0.0
    ensures !LeadingInjective(m, p + 1)
  {
    ZeroPivotWitness(m, p);
    var x := Witness(Reduce(m, p, |m|), p);
    assert x[p] == 1.0;
  }

  /** The elimination divides by no zero exactly if every leading block is injective. */
  lemma {:induction false} PivotsExactly(m: Mat, k: nat)
    requires IsMat(m, |m|, |m|) && k <= |m|
    ensures NonzeroPivots(m, k, |m|) <==> forall q :: 0 <= q <= k ==> LeadingInjective(m, q)
  {
    if NonzeroPivots(m, k, |m|) {
      forall q | 0 <= q <= k ensures LeadingInjective(m, q) {
        PivotsGiveLeading(m, q);
      }
    } else {
      var p := FirstZeroPivot(m, k);
      ZeroPivotBreaks(m, p);
      assert !LeadingInjective(m, p + 1);
    }
  }

  lemma {:induction false} FirstZeroPivot(m: Mat, k: nat) returns (p: nat)
    requires IsMat(m, |m|, |m|) && k <= |m| && !NonzeroPivots(m, k, |m|)
    ensures p < k && NonzeroPivots(m, p, |m|) && Reduce(m, p, |m|)[p][p] == 0.0
  {
    if NonzeroPivots(m, k - 1, |m|) {
      p := k - 1;
    } else {
      p := FirstZeroPivot(m, k - 1);
    }
  }
}
