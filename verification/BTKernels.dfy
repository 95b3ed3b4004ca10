/**
 The 5 by 5 block kernels of the BT solver: `matvec_sub`, `matmul_sub`, `binvcrhs`, `binvrhs`.

 All of them overwrite their arguments in place.  The two inversions never write the pivot column,
 so what they leave in `lhs` is not the identity; `Textbook` is the matrix they stand for.
 */
module BTKernels {
  import opened LinAlg
  import opened GaussJordan

  const BLOCK_SIZE := 5

  lemma {:induction false} DotFive(u: Vec, v: Vec)
    requires |u| == |v| == 5
    ensures Dot(u, v) == u[0] * v[0] + u[1] * v[1] + u[2] * v[2] + u[3] * v[3] + u[4] * v[4]
  {
    assert DotTo(u, v, 1) == u[0] * v[0];
    assert DotTo(u, v, 2) == u[0] * v[0] + u[1] * v[1];
    assert DotTo(u, v, 3) == DotTo(u, v, 2) + u[2] * v[2];
    assert DotTo(u, v, 4) == DotTo(u, v, 3) + u[3] * v[3];
  }

  /** The five-term update, with the factors written out. */
  lemma {:induction false} SubFive(z: real, u: Vec, v: Vec, a0: real, a1: real, a2: real, a3: real, a4: real,
                                   b0: real, b1: real, b2: real, b3: real, b4: real)
    requires u == [a0, a1, a2, a3, a4] && v == [b0, b1, b2, b3, b4]
    ensures z - a0 * b0 - a1 * b1 - a2 * b2 - a3 * b3 - a4 * b4 == z - Dot(u, v)
  {
    DotFive(u, v);
  }

  lemma {:induction false} UpdateFive(y: Vec, m: Mat, x: Vec, i: nat, z: real, a0: real, a1: real, a2: real, a3: real, a4: real,
                                      b0: real, b1: real, b2: real, b3: real, b4: real)
    requires IsMat(m, |y|, 5) && i < |y| && m[i] == [a0, a1, a2, a3, a4] && x == [b0, b1, b2, b3, b4] && z == Sub(y, MatVec(m, x))[i]
    ensures y[i] - a0 * b0 - a1 * b1 - a2 * b2 - a3 * b3 - a4 * b4 == z
  {
    SubFive(y[i], m[i], x, a0, a1, a2, a3, a4, b0, b1, b2, b3, b4);
  }

  /** `bvec := bvec - ablock * avec`. */
  method MatvecSub(ablock: array2<real>, avec: array<real>, bvec: array<real>)
    requires ablock.Length0 == ablock.Length1 == avec.Length == bvec.Length == BLOCK_SIZE
    requires avec != bvec
    modifies bvec
    ensures bvec[..] == Sub(old(bvec[..]), MatVec(MatOf(ablock), avec[..]))
  {
    ghost var m, x, y := MatOf(ablock), avec[..], bvec[..];
    ghost var z := Sub(y, MatVec(m, x));
    for i := 0 to 5
      invariant forall l :: i <= l < 5 ==> bvec[l] == y[l]
      invariant forall l :: 0 <= l < i ==> bvec[l] == z[l]
    {
      UpdateFive(y, m, x, i, z[i], ablock[i, 0], ablock[i, 1], ablock[i, 2], ablock[i, 3], ablock[i, 4],
                 avec[0], avec[1], avec[2], avec[3], avec[4]);
      bvec[i] := bvec[i] - ablock[i, 0] * avec[0]
                         - ablock[i, 1] * avec[1]
                         - ablock[i, 2] * avec[2]
                         - ablock[i, 3] * avec[3]
                         - ablock[i, 4] * avec[4];
    }
  }

  /** One column of `cblock - ablock * bblock`. */
  method MatmulSubColumn(ablock: array2<real>, bblock: array2<real>, cblock: array2<real>, j: nat)
    requires ablock.Length0 == ablock.Length1 == bblock.Length0 == bblock.Length1 == BLOCK_SIZE
    requires cblock.Length0 == cblock.Length1 == BLOCK_SIZE && j < BLOCK_SIZE
    requires cblock != ablock && cblock != bblock
    modifies cblock
    ensures forall i, l :: 0 <= i < 5 && 0 <= l < 5 ==>
              cblock[i, l] == if l == j then old(cblock[i, l]) - Dot(MatOf(ablock)[i], Col(MatOf(bblock), j))
                              else old(cblock[i, l])
  {
    ghost var a, b, y := MatOf(ablock), Col(MatOf(bblock), j), Col(MatOf(cblock), j);
    ghost var z := Sub(y, MatVec(a, b));
    for i := 0 to 5
      invariant forall k, l :: 0 <= k < 5 && 0 <= l < 5 ==>
                  cblock[k, l] == if l == j && k < i then z[k] else old(cblock[k, l])
    {
      UpdateFive(y, a, b, i, z[i], ablock[i, 0], ablock[i, 1], ablock[i, 2], ablock[i, 3], ablock[i, 4],
                 bblock[0, j], bblock[1, j], bblock[2, j], bblock[3, j], bblock[4, j]);
      cblock[i, j] := cblock[i, j] - ablock[i, 0] * bblock[0, j]
                                   - ablock[i, 1] * bblock[1, j]
                                   - ablock[i, 2] * bblock[2, j]
                                   - ablock[i, 3] * bblock[3, j]
                                   - ablock[i, 4] * bblock[4, j];
    }
  }

  /** `cblock := cblock - ablock * bblock`. */
  method MatmulSub(ablock: array2<real>, bblock: array2<real>, cblock: array2<real>)
    requires ablock.Length0 == ablock.Length1 == bblock.Length0 == bblock.Length1 == BLOCK_SIZE
    requires cblock.Length0 == cblock.Length1 == BLOCK_SIZE
    requires cblock != ablock && cblock != bblock
    modifies cblock
    ensures MatOf(cblock)
         == MatSub(old(MatOf(cblock)), MatMul(MatOf(ablock), MatOf(bblock), BLOCK_SIZE), BLOCK_SIZE)
  {
    ghost var a, b := MatOf(ablock), MatOf(bblock);
    ghost var prod := MatMul(a, b, 5);
    for j := 0 to 5
      invariant MatOf(ablock) == a && MatOf(bblock) == b
      invariant forall i, l :: 0 <= i < 5 && 0 <= l < 5 ==>
                  cblock[i, l] == if l < j then old(cblock[i, l]) - prod[i][l] else old(cblock[i, l])
    {
      MatmulSubColumn(ablock, bblock, cblock, j);
    }
    ghost var target := MatSub(old(MatOf(cblock)), prod, 5);
    forall i | 0 <= i < 5 ensures MatOf(cblock)[i] == target[i] {
    }
  }

  // ------------------------------------------------------------------ the inversions

  /** The arguments of an inversion: the square block, `w` columns of `c` and one of `r`. */
  ghost predicate Shapes(lhs: array2<real>, c: array2<real>, r: array<real>) {
    && lhs.Length0 == lhs.Length1 == c.Length0 == r.Length == BLOCK_SIZE
    && lhs != c
  }

  /** The right-hand sides, side by side. */
  ghost function Sides(c: array2<real>, r: array<real>): (m: Mat)
    requires c.Length0 == r.Length
    reads c, r
    ensures IsMat(m, r.Length, c.Length1 + 1)
  {
    seq(r.Length, i requires 0 <= i < r.Length reads c, r =>
      seq(c.Length1 + 1, j requires 0 <= j <= c.Length1 reads c, r =>
        if j < c.Length1 then c[i, j] else r[i]))
  }

  /** The matrix that the arrays stand for when the first `p` columns have been cleared. */
  ghost function Textbook(lhs: array2<real>, c: array2<real>, r: array<real>, p: nat): (m: Mat)
    requires Shapes(lhs, c, r) && p <= BLOCK_SIZE
    reads lhs, c, r
    ensures IsMat(m, BLOCK_SIZE, BLOCK_SIZE + c.Length1 + 1)
  {
    seq(5, i requires 0 <= i < 5 reads lhs, c, r =>
      seq(5 + c.Length1 + 1, j requires 0 <= j < 5 + c.Length1 + 1 reads lhs, c, r =>
        if j < p then Delta(i, j)
        else if j < 5 then lhs[i, j]
        else if j < 5 + c.Length1 then c[i, j - 5]
        else r[i]))
  }

  /** Row `p` from column `from` on, times `f`. */
  function Scaled(m: Mat, w: nat, p: nat, from: nat, f: real): (r: Mat)
    requires IsMat(m, |m|, w) && p < |m|
    ensures IsMat(r, |m|, w)
  {
    m[p := seq(w, j requires 0 <= j < w => if j >= from then m[p][j] * f else m[p][j])]
  }

  /** Row `i` from column `from` on, minus `f` times row `p`. */
  function Subtracted(m: Mat, w: nat, i: nat, p: nat, from: nat, f: real): (r: Mat)
    requires IsMat(m, |m|, w) && p < |m| && i < |m|
    ensures IsMat(r, |m|, w)
  {
    m[i := seq(w, j requires 0 <= j < w => if j >= from then m[i][j] - f * m[p][j] else m[i][j])]
  }

  method ScaleFrom(a: array2<real>, p: nat, from: nat, f: real)
    requires p < a.Length0 && from <= a.Length1
    modifies a
    ensures MatOf(a) == Scaled(old(MatOf(a)), a.Length1, p, from, f)
  {
    ghost var m, w := MatOf(a), a.Length1;
    for j := from to a.Length1
      invariant forall i, l :: 0 <= i < a.Length0 && 0 <= l < w ==>
                  a[i, l] == if i == p && from <= l < j then Scaled(m, w, p, from, f)[i][l] else m[i][l]
    {
      a[p, j] := a[p, j] * f;
    }
    ghost var t := Scaled(m, w, p, from, f);
    forall i | 0 <= i < |t| ensures MatOf(a)[i] == t[i] {
    }
  }

  method SubtractFrom(a: array2<real>, i: nat, p: nat, from: nat, f: real)
    requires p < a.Length0 && i < a.Length0 && i != p && from <= a.Length1
    modifies a
    ensures MatOf(a) == Subtracted(old(MatOf(a)), a.Length1, i, p, from, f)
  {
    ghost var m, w := MatOf(a), a.Length1;
    for j := from to a.Length1
      invariant forall k, l :: 0 <= k < a.Length0 && 0 <= l < w ==>
                  a[k, l] == if k == i && from <= l < j then Subtracted(m, w, i, p, from, f)[k][l] else m[k][l]
    {
      a[i, j] := a[i, j] - f * a[p, j];
    }
    ghost var t := Subtracted(m, w, i, p, from, f);
    forall k | 0 <= k < |t| ensures MatOf(a)[k] == t[k] {
    }
  }

  /** A right-hand side as a matrix of one column. */
  function AsColumn(r: Vec): (m: Mat)
    ensures IsMat(m, |r|, 1)
  {
    seq(|r|, i requires 0 <= i < |r| => [r[i]])
  }

  /** Divide row `p`, right of the pivot, by the pivot. */
  method ScaleRow(lhs: array2<real>, c: array2<real>, r: array<real>, p: nat)
    requires Shapes(lhs, c, r) && p < BLOCK_SIZE && lhs[p, p] != 0.0
    modifies lhs, c, r
    ensures MatOf(lhs) == Scaled(old(MatOf(lhs)), 5, p, p + 1, 1.0 / old(lhs[p, p]))
    ensures MatOf(c) == Scaled(old(MatOf(c)), c.Length1, p, 0, 1.0 / old(lhs[p, p]))
    ensures AsColumn(r[..]) == Scaled(old(AsColumn(r[..])), 1, p, 0, 1.0 / old(lhs[p, p]))
  {
    var pivot := 1.00 / lhs[p, p];
    ScaleFrom(lhs, p, p + 1, pivot);
    ScaleFrom(c, p, 0, pivot);
    r[p] := r[p] * pivot;
    ghost var t := Scaled(old(AsColumn(r[..])), 1, p, 0, pivot);
    forall i | 0 <= i < 5 ensures AsColumn(r[..])[i] == t[i] {
      assert AsColumn(r[..])[i][0] == t[i][0];
    }
  }

  /** Subtract row `p` times the coefficient in the pivot column from row `i`. */
  method EliminateRow(lhs: array2<real>, c: array2<real>, r: array<real>, i: nat, p: nat)
    requires Shapes(lhs, c, r) && p < BLOCK_SIZE && i < BLOCK_SIZE && i != p
    modifies lhs, c, r
    ensures MatOf(lhs) == Subtracted(old(MatOf(lhs)), 5, i, p, p + 1, old(lhs[i, p]))
    ensures MatOf(c) == Subtracted(old(MatOf(c)), c.Length1, i, p, 0, old(lhs[i, p]))
    ensures AsColumn(r[..]) == Subtracted(old(AsColumn(r[..])), 1, i, p, 0, old(lhs[i, p]))
  {
    var coeff := lhs[i, p];
    SubtractFrom(lhs, i, p, p + 1, coeff);
    SubtractFrom(c, i, p, 0, coeff);
    r[i] := r[i] - coeff * r[p];
    ghost var t := Subtracted(old(AsColumn(r[..])), 1, i, p, 0, coeff);
    forall k | 0 <= k < 5 ensures AsColumn(r[..])[k] == t[k] {
      assert AsColumn(r[..])[k][0] == t[k][0];
    }
  }

  /** A matrix after the scaling and the elimination from the first `n` rows. */
  function Staged(m: Mat, w: nat, p: nat, from: nat, coeffs: Vec, n: nat): (r: Mat)
    requires IsMat(m, |m|, w) && p < |m| == |coeffs| && n <= |m| && coeffs[p] != 0.0
    ensures IsMat(r, |m|, w)
  {
    if n == 0 then Scaled(m, w, p, from, 1.0 / coeffs[p])
    else
      var t := Staged(m, w, p, from, coeffs, n - 1);
      if n - 1 == p then t else Subtracted(t, w, n - 1, p, from, coeffs[n - 1])
  }

  /** The new value of an entry `x` right of the pivot column. */
  function PivotedEntry(pivotRow: bool, x: real, coeff: real, above: real, d: real): real
    requires d != 0.0
  {
    if pivotRow then x * (1.0 / d) else x - coeff * (above * (1.0 / d))
  }

  lemma {:induction false} StagedEntry(m: Mat, w: nat, p: nat, from: nat, coeffs: Vec, n: nat, k: nat, j: nat)
    requires IsMat(m, |m|, w) && p < |m| == |coeffs| && n <= |m| && coeffs[p] != 0.0 && k < |m| && j < w
    ensures Staged(m, w, p, from, coeffs, n)[k][j]
         == if j < from || (k != p && k >= n) then m[k][j] else PivotedEntry(k == p, m[k][j], coeffs[k], m[p][j], coeffs[p])
  {
    if n > 0 {
      StagedEntry(m, w, p, from, coeffs, n - 1, k, j);
      StagedEntry(m, w, p, from, coeffs, n - 1, p, j);
    }
  }

  /** The division of row `p` and its subtraction from all other rows, entry by entry. */
  method StageEntries(lhs: array2<real>, c: array2<real>, r: array<real>, p: nat)
    requires Shapes(lhs, c, r) && p < BLOCK_SIZE && lhs[p, p] != 0.0
    modifies lhs, c, r
    ensures forall k, j :: 0 <= k < 5 && 0 <= j < 5 ==>
              lhs[k, j] == if j <= p then old(lhs[k, j])
                           else PivotedEntry(k == p, old(lhs[k, j]), old(lhs[k, p]), old(lhs[p, j]), old(lhs[p, p]))
    ensures forall k, j :: 0 <= k < 5 && 0 <= j < c.Length1 ==>
              c[k, j] == PivotedEntry(k == p, old(c[k, j]), old(lhs[k, p]), old(c[p, j]), old(lhs[p, p]))
    ensures forall k :: 0 <= k < 5 ==>
              r[k] == PivotedEntry(k == p, old(r[k]), old(lhs[k, p]), old(r[p]), old(lhs[p, p]))
  {
    ghost var l0, c0, r0, w := MatOf(lhs), MatOf(c), AsColumn(r[..]), c.Length1;
    ghost var coeffs := Col(l0, p);
    ScaleRow(lhs, c, r, p);
    for i := 0 to 5
      invariant MatOf(lhs) == Staged(l0, 5, p, p + 1, coeffs, i)
      invariant MatOf(c) == Staged(c0, w, p, 0, coeffs, i)
      invariant AsColumn(r[..]) == Staged(r0, 1, p, 0, coeffs, i)
    {
      if i != p {
        StagedEntry(l0, 5, p, p + 1, coeffs, i, i, p);
        assert lhs[i, p] == MatOf(lhs)[i][p];
        EliminateRow(lhs, c, r, i, p);
      }
    }
    forall k, j | 0 <= k < 5 && 0 <= j < 5
      ensures lhs[k, j] == if j <= p then l0[k][j] else PivotedEntry(k == p, l0[k][j], coeffs[k], l0[p][j], coeffs[p])
    {
      StagedEntry(l0, 5, p, p + 1, coeffs, 5, k, j);
      assert lhs[k, j] == MatOf(lhs)[k][j];
    }
    forall k, j | 0 <= k < 5 && 0 <= j < w
      ensures c[k, j] == PivotedEntry(k == p, c0[k][j], coeffs[k], c0[p][j], coeffs[p])
    {
      StagedEntry(c0, w, p, 0, coeffs, 5, k, j);
      assert c[k, j] == MatOf(c)[k][j];
    }
    forall k | 0 <= k < 5 ensures r[k] == PivotedEntry(k == p, r0[k][0], coeffs[k], r0[p][0], coeffs[p]) {
      StagedEntry(r0, 1, p, 0, coeffs, 5, k, 0);
      assert r[k] == AsColumn(r[..])[k][0];
    }
  }

  lemma {:induction false} StageMatches(t: Mat, u: Mat, p: nat, w: nat)
    requires p < |t| <= w && IsMat(t, |t|, w) && IsMat(u, |t|, w) && t[p][p] != 0.0
    requires UnitColumns(t, p) && UnitColumns(u, p + 1)
    requires forall i, j :: 0 <= i < |t| && p < j < w ==>
               u[i][j] == PivotedEntry(i == p, t[i][j], t[i][p], t[p][j], t[p][p])
    ensures u == Stage(t, p, w)
  {
    var s := Stage(t, p, w);
    StageUnitColumns(t, p, w);
    forall i | 0 <= i < |t| ensures u[i] == s[i] {
      forall j | 0 <= j < w ensures u[i][j] == s[i][j] {
      }
    }
  }

  method PivotStage(lhs: array2<real>, c: array2<real>, r: array<real>, p: nat)
    requires Shapes(lhs, c, r) && p < BLOCK_SIZE && lhs[p, p] != 0.0
    modifies lhs, c, r
    ensures Textbook(lhs, c, r, p + 1)
         == Stage(old(Textbook(lhs, c, r, p)), p, BLOCK_SIZE + c.Length1 + 1)
    ensures forall i, j :: 0 <= i < 5 && 0 <= j <= p ==> lhs[i, j] == old(lhs[i, j])
  {
    ghost var t := Textbook(lhs, c, r, p);
    StageEntries(lhs, c, r, p);
    StageMatches(t, Textbook(lhs, c, r, p + 1), p, 5 + c.Length1 + 1);
  }

  /** What an inversion leaves in `lhs`: column `j` as it stood when it became the pivot column. */
  function Leftover(b: Mat): (m: Mat)
    requires IsMat(b, |b|, |b|)
    ensures IsMat(m, |b|, |b|)
  {
    seq(|b|, i requires 0 <= i < |b| =>
      seq(|b|, j requires 0 <= j < |b| => Reduce(b, j, |b|)[i][j]))
  }

  /** The pivot column does not depend on what is appended to the block. */
  lemma {:induction false} PivotColumn(b: Mat, sides: Mat, w: nat, i: nat, p: nat)
    requires IsMat(b, |b|, |b|) && IsMat(sides, |b|, w) && i < |b| && p < |b| && NonzeroPivots(b, |b|, |b|)
    ensures Reduce(Augment(b, sides, w), p, |b| + w)[i][p] == Leftover(b)[i][p]
    ensures Leftover(b)[p][p] != 0.0
  {
    AugmentColumns(b, sides, w, p, i);
  }

  lemma {:induction false} TextbookStart(lhs: array2<real>, c: array2<real>, r: array<real>)
    requires Shapes(lhs, c, r)
    ensures Textbook(lhs, c, r, 0) == Augment(MatOf(lhs), Sides(c, r), c.Length1 + 1)
  {
    var t, g := Textbook(lhs, c, r, 0), Augment(MatOf(lhs), Sides(c, r), c.Length1 + 1);
    forall i | 0 <= i < 5 ensures t[i] == g[i] {
    }
  }

  /** The five stages in turn. */
  method Eliminate(lhs: array2<real>, c: array2<real>, r: array<real>)
    requires Shapes(lhs, c, r)
    requires NonzeroPivots(MatOf(lhs), BLOCK_SIZE, BLOCK_SIZE)
    modifies lhs, c, r
    ensures MatOf(lhs) == old(Leftover(MatOf(lhs)))
    ensures Sides(c, r) == old(Solve(MatOf(lhs), Sides(c, r), c.Length1 + 1))
  {
    ghost var w := 5 + c.Length1 + 1;
    ghost var b, sides := MatOf(lhs), Sides(c, r);
    ghost var left := Leftover(b);
    TextbookStart(lhs, c, r);
    for p := 0 to 5
      invariant Textbook(lhs, c, r, p) == Reduce(Augment(b, sides, c.Length1 + 1), p, w)
      invariant forall i, j :: 0 <= i < 5 && 0 <= j < p ==> lhs[i, j] == left[i][j]
    {
      forall i | 0 <= i < 5 ensures lhs[i, p] == left[i][p] {
        PivotColumn(b, sides, c.Length1 + 1, i, p);
        assert Textbook(lhs, c, r, p)[i][p] == lhs[i, p];
      }
      PivotStage(lhs, c, r, p);
    }
    ghost var t, s := Textbook(lhs, c, r, 5), Solve(b, sides, c.Length1 + 1);
    forall i | 0 <= i < 5 ensures Sides(c, r)[i] == s[i] {
      assert Sides(c, r)[i] == t[i][5..];
    }
    forall i | 0 <= i < 5 ensures MatOf(lhs)[i] == left[i] {
    }
  }

  /** The solution of `b x == r`. */
  function SolveVec(b: Mat, r: Vec): (x: Vec)
    requires IsMat(b, |b|, |b|) && |r| == |b|
    ensures |x| == |b|
  {
    Col(Solve(b, AsColumn(r), 1), 0)
  }

  lemma {:induction false} SolveVecCorrect(b: Mat, r: Vec, x: Vec)
    requires IsMat(b, |b|, |b|) && |r| == |x| == |b|
    requires NonzeroPivots(b, |b|, |b|)
    ensures MatVec(b, x) == r <==> x == SolveVec(b, r)
  {
    SolveCorrect(b, AsColumn(r), 1, x, 0);
    assert Col(AsColumn(r), 0) == r;
  }

  /** Solving for several columns at once solves for each of them. */
  lemma {:induction false} SolveByColumn(b: Mat, s: Mat, w: nat, j: nat)
    requires IsMat(b, |b|, |b|) && IsMat(s, |b|, w) && j < w
    requires NonzeroPivots(b, |b|, |b|)
    ensures Col(Solve(b, s, w), j) == SolveVec(b, Col(s, j))
  {
    var x := Col(Solve(b, s, w), j);
    SolveCorrect(b, s, w, x, j);
    SolveVecCorrect(b, Col(s, j), x);
  }

  lemma {:induction false} SameColumns(m: Mat, m': Mat, rows: nat, w: nat)
    requires IsMat(m, rows, w) && IsMat(m', rows, w)
    requires forall j :: 0 <= j < w ==> Col(m, j) == Col(m', j)
    ensures m == m'
  {
    forall i | 0 <= i < rows ensures m[i] == m'[i] {
      forall j | 0 <= j < w ensures m[i][j] == m'[i][j] {
        assert Col(m, j)[i] == Col(m', j)[i];
      }
    }
  }

  /** `c := lhs^-1 c` and `r := lhs^-1 r`. */
  method BinvCRhs(lhs: array2<real>, c: array2<real>, r: array<real>)
    requires Shapes(lhs, c, r) && c.Length1 == BLOCK_SIZE
    requires NonzeroPivots(MatOf(lhs), BLOCK_SIZE, BLOCK_SIZE)
    modifies lhs, c, r
    ensures MatOf(lhs) == old(Leftover(MatOf(lhs)))
    ensures MatOf(c) == old(Solve(MatOf(lhs), MatOf(c), BLOCK_SIZE))
    ensures r[..] == old(SolveVec(MatOf(lhs), r[..]))
    ensures IsProduct(old(MatOf(c)), old(MatOf(lhs)), MatOf(c), BLOCK_SIZE)
    ensures MatVec(old(MatOf(lhs)), r[..]) == old(r[..])
  {
    ghost var b, c0, r0, s0 := MatOf(lhs), MatOf(c), r[..], Sides(c, r);
    Eliminate(lhs, c, r);
    ghost var s := Sides(c, r);
    forall j | 0 <= j < 5 ensures Col(MatOf(c), j) == Col(Solve(b, c0, 5), j) {
      SolveByColumn(b, s0, 6, j);
      SolveByColumn(b, c0, 5, j);
      assert Col(s0, j) == Col(c0, j);
      assert Col(MatOf(c), j) == Col(s, j);
    }
    SameColumns(MatOf(c), Solve(b, c0, 5), 5, 5);
    SolveByColumn(b, s0, 6, 5);
    assert Col(s0, 5) == r0;
    assert r[..] == Col(s, 5);
    SolveProduct(b, c0, 5);
    SolveVecCorrect(b, r0, r[..]);
  }

  /** `r := lhs^-1 r`; the elimination of `binvcrhs` without a block `c`. */
  method BinvRhs(lhs: array2<real>, r: array<real>)
    requires lhs.Length0 == lhs.Length1 == r.Length == BLOCK_SIZE
    requires NonzeroPivots(MatOf(lhs), BLOCK_SIZE, BLOCK_SIZE)
    modifies lhs, r
    ensures MatOf(lhs) == old(Leftover(MatOf(lhs)))
    ensures r[..] == old(SolveVec(MatOf(lhs), r[..]))
    ensures MatVec(old(MatOf(lhs)), r[..]) == old(r[..])
  {
    ghost var b, r0 := MatOf(lhs), r[..];
    var c := new real[5, 0];
    ghost var s0 := Sides(c, r);
    forall i | 0 <= i < 5 ensures s0[i] == AsColumn(r0)[i] {
    }
    assert s0 == AsColumn(r0);
    Eliminate(lhs, c, r);
    assert r[..] == Col(Sides(c, r), 0);
    SolveVecCorrect(b, r0, r[..]);
  }
}
