/**
 Vectors and matrices over the reals, for arbitrary sizes.

 Products are partial sums over an index (`DotTo`), so that the proofs about them follow the
 loops of the kernels and never have to cut sequences apart.
 */
module LinAlg {

  type Vec = seq<real>
  type Mat = seq<Vec>

  predicate IsMat(m: Mat, rows: nat, cols: nat) {
    |m| == rows && forall i :: 0 <= i < rows ==> |m[i]| == cols
  }

  /** The matrix that an array holds. */
  function MatOf(a: array2<real>): (m: Mat)
    reads a
    ensures IsMat(m, a.Length0, a.Length1)
  {
    seq(a.Length0, i requires 0 <= i < a.Length0 reads a =>
      seq(a.Length1, j requires 0 <= j < a.Length1 reads a => a[i, j]))
  }

  /** The sum of the first `n` products. */
  function DotTo(u: Vec, v: Vec, n: nat): real
    requires n <= |u| && n <= |v|
  {
    if n == 0 then 0.0 else DotTo(u, v, n - 1) + u[n - 1] * v[n - 1]
  }

  function Dot(u: Vec, v: Vec): real
    requires |u| == |v|
  {
    DotTo(u, v, |u|)
  }

  function MatVec(m: Mat, x: Vec): (y: Vec)
    requires IsMat(m, |m|, |x|)
    ensures |y| == |m|
  {
    seq(|m|, i requires 0 <= i < |m| => Dot(m[i], x))
  }

  function Sub(x: Vec, y: Vec): (z: Vec)
    requires |x| == |y|
    ensures |z| == |x|
  {
    seq(|x|, i requires 0 <= i < |x| => x[i] - y[i])
  }

  function Add(x: Vec, y: Vec): (z: Vec)
    requires |x| == |y|
    ensures |z| == |x|
  {
    seq(|x|, i requires 0 <= i < |x| => x[i] + y[i])
  }

  function Zero(n: nat): (z: Vec)
    ensures |z| == n
  {
    seq(n, i => 0.0)
  }

  function Delta(i: int, j: int): real {
    if i == j then 1.0 else 0.0
  }

  function Identity(n: nat): (m: Mat)
    ensures IsMat(m, n, n)
  {
    seq(n, i => seq(n, j => Delta(i, j)))
  }

  function Col(m: Mat, j: nat): (c: Vec)
    requires forall i :: 0 <= i < |m| ==> j < |m[i]|
    ensures |c| == |m|
  {
    seq(|m|, i requires 0 <= i < |m| => m[i][j])
  }

  /** `m * c`, entry by entry. */
  function MatMul(m: Mat, c: Mat, w: nat): (r: Mat)
    requires IsMat(c, |c|, w) && IsMat(m, |m|, |c|)
    ensures IsMat(r, |m|, w)
  {
    seq(|m|, i requires 0 <= i < |m| => seq(w, j requires 0 <= j < w => Dot(m[i], Col(c, j))))
  }

  function MatSub(m: Mat, c: Mat, w: nat): (r: Mat)
    requires IsMat(m, |m|, w) && IsMat(c, |m|, w)
    ensures IsMat(r, |m|, w)
  {
    seq(|m|, i requires 0 <= i < |m| => Sub(m[i], c[i]))
  }

  lemma CombineTerm(a: real, u: real, c: real, w: real, v: real)
    ensures (a * u + c * w) * v == a * (u * v) + c * (w * v)
  {
  }

  lemma CombineSums(a: real, x: real, x': real, c: real, y: real, y': real)
    ensures (a * x + c * y) + (a * x' + c * y') == a * (x + x') + c * (y + y')
  {
  }

  /** A combination of two vectors goes through the product on the left ... */
  lemma {:induction false} DotLinear(t: Vec, a: real, u: Vec, c: real, w: Vec, v: Vec, n: nat)
    requires n <= |t| && n <= |u| && n <= |w| && n <= |v|
    requires forall j :: 0 <= j < n ==> t[j] == a * u[j] + c * w[j]
    ensures DotTo(t, v, n) == a * DotTo(u, v, n) + c * DotTo(w, v, n)
  {
    if n > 0 {
      var k := n - 1;
      DotLinear(t, a, u, c, w, v, k);
      CombineTerm(a, u[k], c, w[k], v[k]);
      CombineSums(a, DotTo(u, v, k), u[k] * v[k], c, DotTo(w, v, k), w[k] * v[k]);
    }
  }

  lemma {:induction false} DotCommutes(u: Vec, v: Vec, n: nat)
    requires n <= |u| && n <= |v|
    ensures DotTo(u, v, n) == DotTo(v, u, n)
  {
    if n > 0 {
      DotCommutes(u, v, n - 1);
    }
  }

  /** ... and on the right. */
  lemma {:induction false} DotLinearRight(v: Vec, t: Vec, a: real, u: Vec, c: real, w: Vec, n: nat)
    requires n <= |t| && n <= |u| && n <= |w| && n <= |v|
    requires forall j :: 0 <= j < n ==> t[j] == a * u[j] + c * w[j]
    ensures DotTo(v, t, n) == a * DotTo(v, u, n) + c * DotTo(v, w, n)
  {
    DotLinear(t, a, u, c, w, v, n);
    DotCommutes(t, v, n);
    DotCommutes(u, v, n);
    DotCommutes(w, v, n);
  }

  lemma {:induction false} DotSub(v: Vec, x: Vec, y: Vec)
    requires |v| == |x| == |y|
    ensures Dot(v, Sub(x, y)) == Dot(v, x) - Dot(v, y)
  {
    SubDot(x, y, v);
    DotCommutes(v, Sub(x, y), |v|);
    DotCommutes(v, x, |v|);
    DotCommutes(v, y, |v|);
  }

  lemma {:induction false} SubDot(x: Vec, y: Vec, v: Vec)
    requires |v| == |x| == |y|
    ensures Dot(Sub(x, y), v) == Dot(x, v) - Dot(y, v)
  {
    var t := Sub(x, y);
    forall j | 0 <= j < |v| ensures t[j] == 1.0 * x[j] + -1.0 * y[j] {
      assert t[j] == x[j] - y[j];
    }
    DotLinear(t, 1.0, x, -1.0, y, v, |v|);
  }

  lemma {:induction false} DotAdd(v: Vec, x: Vec, y: Vec)
    requires |v| == |x| == |y|
    ensures Dot(v, Add(x, y)) == Dot(v, x) + Dot(v, y)
  {
    var t := Add(x, y);
    forall j | 0 <= j < |v| ensures t[j] == 1.0 * x[j] + 1.0 * y[j] {
      assert t[j] == x[j] + y[j];
    }
    DotLinearRight(v, t, 1.0, x, 1.0, y, |v|);
  }

  /** A vector that is zero except at `at` picks out one entry. */
  lemma {:induction false} DotPick(u: Vec, v: Vec, at: nat, n: nat)
    requires n <= |u| && n <= |v|
    requires forall j :: 0 <= j < n && j != at ==> u[j] == 0.0
    ensures DotTo(u, v, n) == if at < n then u[at] * v[at] else 0.0
  {
    if n > 0 {
      DotPick(u, v, at, n - 1);
    }
  }

  lemma {:induction false} DotZero(u: Vec, v: Vec, n: nat)
    requires n <= |u| && n <= |v|
    requires forall j :: 0 <= j < n ==> u[j] == 0.0 || v[j] == 0.0
    ensures DotTo(u, v, n) == 0.0
  {
    if n > 0 {
      DotZero(u, v, n - 1);
    }
  }

  /** Only the entries below `n` matter. */
  lemma {:induction false} DotSame(u: Vec, v: Vec, u': Vec, v': Vec, n: nat)
    requires n <= |u| && n <= |v| && n <= |u'| && n <= |v'|
    requires forall j :: 0 <= j < n ==> u[j] == u'[j] && v[j] == v'[j]
    ensures DotTo(u, v, n) == DotTo(u', v', n)
  {
    if n > 0 {
      DotSame(u, v, u', v', n - 1);
    }
  }

  /** Trailing zero products can be dropped. */
  lemma {:induction false} DotTail(u: Vec, v: Vec, n: nat, m: nat)
    requires n <= m <= |u| && m <= |v|
    requires forall j :: n <= j < m ==> u[j] == 0.0 || v[j] == 0.0
    ensures DotTo(u, v, m) == DotTo(u, v, n)
  {
    if n < m {
      DotTail(u, v, n, m - 1);
    }
  }

  /** `p == m * c`, entry by entry. */
  ghost predicate IsProduct(p: Mat, m: Mat, c: Mat, w: nat) {
    && IsMat(c, |c|, w) && IsMat(m, |m|, |c|) && IsMat(p, |m|, w)
    && forall i, j :: 0 <= i < |m| && 0 <= j < w ==> p[i][j] == Dot(m[i], Col(c, j))
  }

  /** The partial product `c * x` over the first `n` columns. */
  function PartialMatVec(c: Mat, x: Vec, n: nat): (y: Vec)
    requires n <= |x| && IsMat(c, |c|, |x|)
    ensures |y| == |c|
  {
    seq(|c|, i requires 0 <= i < |c| => DotTo(c[i], x, n))
  }

  lemma {:induction false} ProductRow(p: Mat, m: Mat, c: Mat, x: Vec, i: nat, n: nat)
    requires IsProduct(p, m, c, |x|) && i < |m| && n <= |x|
    ensures DotTo(p[i], x, n) == Dot(m[i], PartialMatVec(c, x, n))
  {
    if n == 0 {
      DotZero(m[i], PartialMatVec(c, x, 0), |c|);
    } else {
      ProductRow(p, m, c, x, i, n - 1);
      var t, u, w := PartialMatVec(c, x, n), PartialMatVec(c, x, n - 1), Col(c, n - 1);
      forall j | 0 <= j < |c| ensures t[j] == 1.0 * u[j] + x[n - 1] * w[j] {
        assert t[j] == u[j] + c[j][n - 1] * x[n - 1];
      }
      DotLinearRight(m[i], t, 1.0, u, x[n - 1], w, |c|);
    }
  }

  /** `(m * c) x == m (c x)`. */
  lemma {:induction false} ProductAssociates(p: Mat, m: Mat, c: Mat, x: Vec)
    requires IsProduct(p, m, c, |x|)
    ensures MatVec(p, x) == MatVec(m, MatVec(c, x))
  {
    assert PartialMatVec(c, x, |x|) == MatVec(c, x);
    forall i | 0 <= i < |m|
      ensures MatVec(p, x)[i] == MatVec(m, MatVec(c, x))[i]
    {
      ProductRow(p, m, c, x, i, |x|);
    }
  }

  lemma {:induction false} MatVecSub(m: Mat, x: Vec, y: Vec)
    requires |x| == |y| && IsMat(m, |m|, |x|)
    ensures MatVec(m, Sub(x, y)) == Sub(MatVec(m, x), MatVec(m, y))
  {
    forall i | 0 <= i < |m|
      ensures MatVec(m, Sub(x, y))[i] == Sub(MatVec(m, x), MatVec(m, y))[i]
    {
      DotSub(m[i], x, y);
    }
  }

  lemma {:induction false} MatVecAdd(m: Mat, x: Vec, y: Vec)
    requires |x| == |y| && IsMat(m, |m|, |x|)
    ensures MatVec(m, Add(x, y)) == Add(MatVec(m, x), MatVec(m, y))
  {
    forall i | 0 <= i < |m|
      ensures MatVec(m, Add(x, y))[i] == Add(MatVec(m, x), MatVec(m, y))[i]
    {
      DotAdd(m[i], x, y);
    }
  }

  lemma {:induction false} MatSubVec(m: Mat, c: Mat, x: Vec)
    requires IsMat(m, |m|, |x|) && IsMat(c, |m|, |x|)
    ensures MatVec(MatSub(m, c, |x|), x) == Sub(MatVec(m, x), MatVec(c, x))
  {
    forall i | 0 <= i < |m|
      ensures MatVec(MatSub(m, c, |x|), x)[i] == Sub(MatVec(m, x), MatVec(c, x))[i]
    {
      SubDot(m[i], c[i], x);
    }
  }
}
