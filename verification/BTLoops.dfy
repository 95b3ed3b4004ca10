/**
 The loops of the BT program that run over the whole grid point by point, and what the flux and
 dissipation loops of the three axes add up to.
 */
module BTLoops {
  import opened LinAlg
  import opened BTSweep
  import opened BTAdi
  import opened BTDissipation
  import D = Dissipation

  /** A cell that a triple loop has passed when it stands at `(i0, j0, k0)`. */
  predicate Reached(i: int, j: int, k: int, i0: int, j0: int, k0: int) {
    i < i0 || (i == i0 && (j < j0 || (j == j0 && k < k0)))
  }

  predicate Within<T>(a: array3<T>, i: int, j: int, k: int) {
    0 <= i < a.Length0 && 0 <= j < a.Length1 && 0 <= k < a.Length2
  }

  predicate Interior<T>(a: array3<T>, i: int, j: int, k: int) {
    0 < i < a.Length0 - 1 && 0 < j < a.Length1 - 1 && 0 < k < a.Length2 - 1
  }

  /** The loops over the whole grid that set every cell. */
  method Fill<T>(a: array3<T>, g: (int, int, int) -> T)
    modifies a
    ensures forall i, j, k :: Within(a, i, j, k) ==> a[i, j, k] == g(i, j, k)
  {
    for i := 0 to a.Length0
      invariant forall i', j', k' :: Within(a, i', j', k') && Reached(i', j', k', i, 0, 0) ==> a[i', j', k'] == g(i', j', k')
    {
      for j := 0 to a.Length1
        invariant forall i', j', k' :: Within(a, i', j', k') && Reached(i', j', k', i, j, 0) ==> a[i', j', k'] == g(i', j', k')
      {
        for k := 0 to a.Length2
          invariant forall i', j', k' :: Within(a, i', j', k') && Reached(i', j', k', i, j, k) ==> a[i', j', k'] == g(i', j', k')
        {
          a[i, j, k] := g(i, j, k);
        }
      }
    }
  }

  /** The loops over the interior that update every cell in place. */
  method UpdateInterior(a: array3<Vec5>, g: (int, int, int, Vec5) -> Vec5)
    requires a.Length0 >= 2 && a.Length1 >= 2 && a.Length2 >= 2
    modifies a
    ensures forall i, j, k :: Within(a, i, j, k) ==>
              a[i, j, k] == if Interior(a, i, j, k) then g(i, j, k, old(a[i, j, k])) else old(a[i, j, k])
  {
    for i := 1 to a.Length0 - 1
      invariant forall i', j', k' :: Within(a, i', j', k') ==>
                  a[i', j', k'] == if Interior(a, i', j', k') && Reached(i', j', k', i, 0, 0) then g(i', j', k', old(a[i', j', k'])) else old(a[i', j', k'])
    {
      for j := 1 to a.Length1 - 1
        invariant forall i', j', k' :: Within(a, i', j', k') ==>
                    a[i', j', k'] == if Interior(a, i', j', k') && Reached(i', j', k', i, j, 0) then g(i', j', k', old(a[i', j', k'])) else old(a[i', j', k'])
      {
        for k := 1 to a.Length2 - 1
          invariant forall i', j', k' :: Within(a, i', j', k') ==>
                      a[i', j', k'] == if Interior(a, i', j', k') && Reached(i', j', k', i, j, k) then g(i', j', k', old(a[i', j', k'])) else old(a[i', j', k'])
        {
          a[i, j, k] := g(i, j, k, a[i, j, k]);
        }
      }
    }
  }

  function Plus(x: Vec5, y: Vec5): Vec5 {
    Add(x, y)
  }

  function Scale(t: real, v: Vec5): Vec5 {
    seq(5, m requires 0 <= m < 5 => t * v[m])
  }

  /** What the dissipation along `d` takes away at a grid point, computed from `v`. */
  function LossAt(v: array3<Vec5>, dssp: real, d: Axis, i: int, j: int, k: int): Vec5
    requires Within(v, i, j, k)
    reads v
  {
    match d
    case X => Loss(LineAt(v, X, j, k), dssp, i)
    case Y => Loss(LineAt(v, Y, i, k), dssp, j)
    case Z => Loss(LineAt(v, Z, i, j), dssp, k)
  }

  lemma SubZero(x: Vec5)
    ensures Sub(x, Zero(5)) == x
  {
  }

  /** The damped grid, point by point: the interior loses its part, the boundary nothing. */
  lemma {:induction false} DampedPoint(a: array3<Vec5>, d: Axis, r: Lines5, g: Lines5, dssp: real, s: int, p: int, q: int)
    requires Fits(a, d, r) && Fits(a, d, g) && Along(a, d) >= 5 && In(a, d, s, p, q)
    ensures LinesAfter(a, d, r, g, dssp, |D.Iterations(Along(a, d))|)[p][q][s]
         == if Inner(a, d, p, q) && 0 < s < Along(a, d) - 1 then Sub(r[p][q][s], Loss(g[p][q], dssp, s)) else r[p][q][s]
  {
    if Inner(a, d, p, q) && (s == 0 || s == Along(a, d) - 1) {
      EndsLoseNothing(g[p][q], dssp, |D.Iterations(Along(a, d))|, s);
      SubZero(r[p][q][s]);
    }
  }

  /** The dissipation of one axis on the grid. */
  method Damp(a: array3<Vec5>, v: array3<Vec5>, d: Axis, dssp: real)
    requires a != v && SameShape(a, v) && a.Length0 >= 5 && a.Length1 >= 5 && a.Length2 >= 5
    modifies a
    ensures forall i, j, k :: Within(a, i, j, k) ==>
              a[i, j, k] == if Interior(a, i, j, k) then Sub(old(a[i, j, k]), LossAt(v, dssp, d, i, j, k)) else old(a[i, j, k])
  {
    ghost var r, g := Lines(a, d), Lines(v, d);
    DampAxis(a, v, d, dssp);
    forall i, j, k | Within(a, i, j, k)
      ensures a[i, j, k] == if Interior(a, i, j, k) then Sub(old(a[i, j, k]), LossAt(v, dssp, d, i, j, k)) else old(a[i, j, k])
    {
      var (s, p, q) := match d case X => (i, j, k) case Y => (j, i, k) case Z => (k, i, j);
      assert In(a, d, s, p, q) && At(a, d, s, p, q) == a[i, j, k] && old(At(a, d, s, p, q)) == old(a[i, j, k]);
      assert LineAt(v, d, p, q) == g[p][q];
      DampedPoint(a, d, r, g, dssp, s, p, q);
    }
  }

  /** A value after the flux differences and the dissipation of one axis ... */
  function Axial(b: Vec5, flux: Vec5, loss: Vec5): Vec5 {
    Sub(Plus(b, flux), loss)
  }

  /** ... and of all three. */
  function Terms(b: Vec5, fx: Vec5, lx: Vec5, fy: Vec5, ly: Vec5, fz: Vec5, lz: Vec5): Vec5 {
    Axial(Axial(Axial(b, fx, lx), fy, ly), fz, lz)
  }

  /** The terms of a grid point, with the dissipation computed from `v`. */
  function TermsAt(b: Vec5, flux: Flux, v: array3<Vec5>, dssp: real, i: int, j: int, k: int): Vec5
    requires Within(v, i, j, k)
    reads v
  {
    Terms(b, flux(X, i, j, k), LossAt(v, dssp, X, i, j, k), flux(Y, i, j, k), LossAt(v, dssp, Y, i, j, k),
          flux(Z, i, j, k), LossAt(v, dssp, Z, i, j, k))
  }

  /** The flux loops and the dissipation loops of one axis. */
  method AddAxis(a: array3<Vec5>, v: array3<Vec5>, d: Axis, dssp: real, flux: Flux)
    requires a != v && SameShape(a, v) && a.Length0 >= 5 && a.Length1 >= 5 && a.Length2 >= 5
    modifies a
    ensures forall i, j, k :: Within(a, i, j, k) ==>
              a[i, j, k] == if Interior(a, i, j, k) then Axial(old(a[i, j, k]), flux(d, i, j, k), LossAt(v, dssp, d, i, j, k))
                            else old(a[i, j, k])
  {
    UpdateInterior(a, (i: int, j: int, k: int, x: Vec5) => Plus(x, flux(d, i, j, k)));
    Damp(a, v, d, dssp);
  }

  /** All three axes in turn. */
  method AddAxes(a: array3<Vec5>, v: array3<Vec5>, dssp: real, flux: Flux)
    requires a != v && SameShape(a, v) && a.Length0 >= 5 && a.Length1 >= 5 && a.Length2 >= 5
    modifies a
    ensures forall i, j, k :: Within(a, i, j, k) && !Interior(a, i, j, k) ==> a[i, j, k] == old(a[i, j, k])
    ensures forall i, j, k :: Within(a, i, j, k) && Interior(a, i, j, k) ==>
              Combined(1.0, dssp, a[i, j, k], old(a[i, j, k]), flux, LineAt(v, X, j, k), LineAt(v, Y, i, k), LineAt(v, Z, i, j), i, j, k)
  {
    AddAxis(a, v, X, dssp, flux);
    AddAxis(a, v, Y, dssp, flux);
    AddAxis(a, v, Z, dssp, flux);
    forall i, j, k | Within(a, i, j, k) && Interior(a, i, j, k)
      ensures Combined(1.0, dssp, a[i, j, k], old(a[i, j, k]), flux, LineAt(v, X, j, k), LineAt(v, Y, i, k), LineAt(v, Z, i, j), i, j, k)
    {
      assert a[i, j, k] == TermsAt(old(a[i, j, k]), flux, v, dssp, i, j, k);
      TermsCombine(a[i, j, k], old(a[i, j, k]), flux, v, dssp, i, j, k);
    }
  }

  // ------------------------------------------------------------------ what that adds up to

  /** The point `(i, j, k)` is inside the lines through it. */
  predicate OnLines(x: seq<Vec5>, y: seq<Vec5>, z: seq<Vec5>, i: int, j: int, k: int) {
    && |x| >= 5 && |y| >= 5 && |z| >= 5
    && 0 < i < |x| - 1 && 0 < j < |y| - 1 && 0 < k < |z| - 1
  }

  /** The squared Laplacian of every component at point `s` of a line. */
  function Rates(line: seq<Vec5>, s: int): Vec5
    requires 0 <= s < |line|
  {
    seq(5, m requires 0 <= m < 5 => D.Biharmonic(Component(line, m))[s])
  }

  /**
   What the dissipation along one axis takes at point `s` of a line: `dssp` times the squared Laplacian. With
   five points there is no such rule, and it is what the iterations subtract.
   */
  function Part(dssp: real, line: seq<Vec5>, s: int): Vec5
    requires 0 < s < |line| - 1
  {
    if |line| >= 6 then Scale(dssp, Rates(line, s)) else Loss(line, dssp, s)
  }

  /** What the dissipation takes at a point, given the lines through it. */
  function Drained(dssp: real, x: seq<Vec5>, y: seq<Vec5>, z: seq<Vec5>, i: int, j: int, k: int): Vec5
    requires OnLines(x, y, z, i, j, k)
  {
    Add(Add(Part(dssp, x, i), Part(dssp, y, j)), Part(dssp, z, k))
  }

  function Fluxes(flux: Flux, i: int, j: int, k: int): Vec5 {
    Add(Add(flux(X, i, j, k), flux(Y, i, j, k)), flux(Z, i, j, k))
  }

  /** `v` is `t * (b + f - l)`. */
  ghost predicate Sums(t: real, v: Vec5, b: Vec5, f: Vec5, l: Vec5) {
    forall m :: 0 <= m < 5 ==> v[m] == t * (b[m] + f[m] - l[m])
  }

  /** `v` is `t` times the sum of `b` and the fluxes less the dissipation. */
  ghost predicate Combined(t: real, dssp: real, v: Vec5, b: Vec5, flux: Flux, x: seq<Vec5>, y: seq<Vec5>, z: seq<Vec5>,
                           i: int, j: int, k: int)
    requires OnLines(x, y, z, i, j, k)
  {
    Sums(t, v, b, Fluxes(flux, i, j, k), Drained(dssp, x, y, z, i, j, k))
  }

  lemma {:induction false} LossIs(dssp: real, line: seq<Vec5>, s: int, m: nat, x: real, p: real)
    requires |line| >= 6 && 0 < s < |line| - 1 && m < 5 && x == D.Biharmonic(Component(line, m))[s] && p == dssp * x
    ensures Loss(line, dssp, s)[m] == p
  {
    LossIsBiharmonic(line, dssp, s, m, x);
  }

  lemma {:induction false} LossRate(dssp: real, h: real -> real, line: seq<Vec5>, s: int, m: nat, x: real, y: real)
    requires |line| >= 6 && 0 < s < |line| - 1 && m < 5 && Multiplies(h, dssp)
    requires x == D.Biharmonic(Component(line, m))[s] && y == Loss(line, dssp, s)[m]
    ensures y == h(x)
  {
    var p := h(x);
    assert p == dssp * x;
    LossIs(dssp, line, s, m, x, p);
  }

  lemma {:induction false} LossRates(dssp: real, h: real -> real, line: seq<Vec5>, s: int, b: Vec5, l: Vec5)
    requires |line| >= 6 && 0 < s < |line| - 1 && Multiplies(h, dssp) && b == Rates(line, s) && l == Loss(line, dssp, s)
    ensures forall m :: 0 <= m < 5 ==> l[m] == h(b[m])
  {
    forall m | 0 <= m < 5 ensures l[m] == h(b[m]) {
      LossRate(dssp, h, line, s, m, b[m], l[m]);
    }
  }

  lemma {:induction false} ScaleIs(dssp: real, h: real -> real, b: Vec5, l: Vec5)
    requires Multiplies(h, dssp) && forall m :: 0 <= m < 5 ==> l[m] == h(b[m])
    ensures Scale(dssp, b) == l
  {
    var v := Scale(dssp, b);
    forall m | 0 <= m < 5 ensures v[m] == l[m] {
    }
  }

  lemma {:induction false} PartIsLoss(dssp: real, line: seq<Vec5>, s: int)
    requires 0 < s < |line| - 1
    ensures Part(dssp, line, s) == Loss(line, dssp, s)
  {
    if |line| >= 6 {
      var h := Multiplier(dssp);
      var b, l := Rates(line, s), Loss(line, dssp, s);
      LossRates(dssp, h, line, s, b, l);
      ScaleIs(dssp, h, b, l);
    }
  }

  lemma {:induction false} TermsCombine(w: Vec5, b: Vec5, flux: Flux, v: array3<Vec5>, dssp: real, i: int, j: int, k: int)
    requires v.Length0 >= 5 && v.Length1 >= 5 && v.Length2 >= 5 && Within(v, i, j, k) && Interior(v, i, j, k)
    requires w == TermsAt(b, flux, v, dssp, i, j, k)
    ensures Combined(1.0, dssp, w, b, flux, LineAt(v, X, j, k), LineAt(v, Y, i, k), LineAt(v, Z, i, j), i, j, k)
  {
    var x, y, z := LineAt(v, X, j, k), LineAt(v, Y, i, k), LineAt(v, Z, i, j);
    PartIsLoss(dssp, x, i);
    PartIsLoss(dssp, y, j);
    PartIsLoss(dssp, z, k);
    TermsSum(b, flux(X, i, j, k), Loss(x, dssp, i), flux(Y, i, j, k), Loss(y, dssp, j), flux(Z, i, j, k), Loss(z, dssp, k));
  }

  lemma TermsSum(b: Vec5, fx: Vec5, lx: Vec5, fy: Vec5, ly: Vec5, fz: Vec5, lz: Vec5)
    ensures Sums(1.0, Terms(b, fx, lx, fy, ly, fz, lz), b, Add(Add(fx, fy), fz), Add(Add(lx, ly), lz))
  {
  }

  lemma Distribute(c: real, x: real, y: real, z: real)
    ensures c * x + c * y + c * z == c * (x + y + z)
  {
  }

  lemma DrainedRates(dssp: real, x: Vec5, y: Vec5, z: Vec5, m: nat)
    requires m < 5
    ensures Add(Add(Scale(dssp, x), Scale(dssp, y)), Scale(dssp, z))[m] == dssp * (x[m] + y[m] + z[m])
  {
    Distribute(dssp, x[m], y[m], z[m]);
  }

  /** `x` is the squared Laplacian of component `m` at point `s` of a line. */
  ghost predicate IsRate(line: seq<Vec5>, s: int, m: nat, x: real) {
    0 <= s < |line| && m < 5 && x == D.Biharmonic(Component(line, m))[s]
  }

  /** With six points or more along every axis: the formula, for component `m`. */
  lemma {:induction false} CombinedComponent(t: real, dssp: real, v: Vec5, b: Vec5, flux: Flux, x: seq<Vec5>, y: seq<Vec5>, z: seq<Vec5>,
                                             i: int, j: int, k: int, m: nat, dx: real, dy: real, dz: real)
    requires OnLines(x, y, z, i, j, k) && |x| >= 6 && |y| >= 6 && |z| >= 6 && m < 5
    requires Combined(t, dssp, v, b, flux, x, y, z, i, j, k)
    requires IsRate(x, i, m, dx) && IsRate(y, j, m, dy) && IsRate(z, k, m, dz)
    ensures v[m] == t * (b[m] + (flux(X, i, j, k)[m] + flux(Y, i, j, k)[m] + flux(Z, i, j, k)[m]) - dssp * (dx + dy + dz))
  {
    ComponentOf(t, dssp, v, b, Fluxes(flux, i, j, k), Rates(x, i), Rates(y, j), Rates(z, k), m, dx, dy, dz);
  }

  lemma {:induction false} ComponentOf(t: real, dssp: real, v: Vec5, b: Vec5, f: Vec5, x: Vec5, y: Vec5, z: Vec5, m: nat,
                                       dx: real, dy: real, dz: real)
    requires m < 5 && Sums(t, v, b, f, Add(Add(Scale(dssp, x), Scale(dssp, y)), Scale(dssp, z)))
    requires x[m] == dx && y[m] == dy && z[m] == dz
    ensures v[m] == t * (b[m] + f[m] - dssp * (dx + dy + dz))
  {
    DrainedRates(dssp, x, y, z, m);
  }

  lemma {:induction false} SumsVector(t: real, dssp: real, v: Vec5, b: Vec5, f: Vec5, x: Vec5, y: Vec5, z: Vec5)
    requires Sums(t, v, b, f, Add(Add(Scale(dssp, x), Scale(dssp, y)), Scale(dssp, z)))
    ensures v == Scale(t, Sub(Add(b, f), Scale(dssp, Add(Add(x, y), z))))
  {
    var w := Scale(t, Sub(Add(b, f), Scale(dssp, Add(Add(x, y), z))));
    forall m: nat | m < 5 ensures v[m] == w[m] {
      DrainedRates(dssp, x, y, z, m);
    }
  }

  /** With six points or more along every axis: the formula, for all components at once. */
  lemma {:induction false} CombinedVector(t: real, dssp: real, v: Vec5, b: Vec5, flux: Flux, x: seq<Vec5>, y: seq<Vec5>, z: seq<Vec5>,
                                          i: int, j: int, k: int)
    requires OnLines(x, y, z, i, j, k) && |x| >= 6 && |y| >= 6 && |z| >= 6
    requires Combined(t, dssp, v, b, flux, x, y, z, i, j, k)
    ensures v == Scale(t, Sub(Add(b, Add(Add(flux(X, i, j, k), flux(Y, i, j, k)), flux(Z, i, j, k))),
                              Scale(dssp, Add(Add(Rates(x, i), Rates(y, j)), Rates(z, k)))))
  {
    SumsVector(t, dssp, v, b, Fluxes(flux, i, j, k), Rates(x, i), Rates(y, j), Rates(z, k));
  }

  /** Scaling the result scales it all. */
  lemma {:induction false} SumsScaled(t: real, v: Vec5, b: Vec5, f: Vec5, l: Vec5)
    requires Sums(1.0, v, b, f, l)
    ensures Sums(t, Scale(t, v), b, f, l)
  {
    forall m | 0 <= m < 5 ensures Scale(t, v)[m] == t * (b[m] + f[m] - l[m]) {
      assert v[m] == b[m] + f[m] - l[m];
    }
  }

  /** There is only one such value. */
  lemma SumsUnique(t: real, v: Vec5, w: Vec5, b: Vec5, f: Vec5, l: Vec5)
    requires Sums(t, v, b, f, l) && Sums(t, w, b, f, l)
    ensures v == w
  {
  }

  /** A sum and its negative add up to nothing. */
  lemma {:induction false} SumsBalance(t: real, v: Vec5, b: Vec5, f: Vec5, l: Vec5)
    requires Sums(-1.0, b, ZERO5, f, l) && Sums(t, v, b, f, l)
    ensures v == ZERO5
  {
    forall m | 0 <= m < 5 ensures v[m] == 0.0 {
      assert b[m] + f[m] - l[m] == 0.0;
      assert v[m] == t * 0.0;
    }
  }
}
