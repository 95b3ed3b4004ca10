/**
 The solver for periodic tridiagonal systems along the third axis of a cube: a forward sweep, a row
 of dot products, and a back substitution, in place and for all lines at once.

 The coefficients are those of a factored matrix `L U`: `L` has diagonal `1/b`, subdiagonal `a` and last
 row `d`; `U` has a unit diagonal, superdiagonal `c` and last column `e`.
 */
module Tridvpk {

  import opened LinAlg

  datatype Coefficients = Coefficients(a: Vec, b: Vec, c: Vec, d: Vec, e: Vec) {
    predicate Valid(n: nat) {
      n >= 2 && |a| == |b| == |c| == |d| == |e| == n
    }
  }

  // ------------------------------------------------------------------ the two factors

  /** Row `k` of `L y`. */
  function LowerRow(q: Coefficients, y: Vec, k: nat): real
    requires q.Valid(|y|) && k < |y| && q.b[k] != 0.0
  {
    if k == |y| - 1 then DotTo(q.d, y, k) + y[k] / q.b[k]
    else if k == 0 then y[0] / q.b[0]
    else q.a[k] * y[k - 1] + y[k] / q.b[k]
  }

  /** Row `k` of `U x`. */
  function UpperRow(q: Coefficients, x: Vec, k: nat): real
    requires q.Valid(|x|) && k < |x|
  {
    var n := |x|;
    if k == n - 1 then x[k]
    else if k == n - 2 then x[k] + q.e[k] * x[n - 1]
    else x[k] + q.c[k] * x[k + 1] + q.e[k] * x[n - 1]
  }

  function UpperVec(q: Coefficients, x: Vec): (y: Vec)
    requires q.Valid(|x|)
    ensures |y| == |x|
  {
    seq(|x|, k requires 0 <= k < |x| => UpperRow(q, x, k))
  }

  /** `L (U x) == f`. */
  predicate Solves(q: Coefficients, x: Vec, f: Vec)
    requires q.Valid(|x|) && |f| == |x| && forall k :: 0 <= k < |x| ==> q.b[k] != 0.0
  {
    forall k :: 0 <= k < |x| ==> LowerRow(q, UpperVec(q, x), k) == f[k]
  }

  // ------------------------------------------------------------------ what the sweeps compute

  /** Entry `k` of the line after the forward sweep. */
  function Forward(q: Coefficients, f: Vec, k: nat): real
    requires q.Valid(|f|) && k < |f| - 1
  {
    if k == 0 then f[0] * q.b[0] else (f[k] - q.a[k] * Forward(q, f, k - 1)) * q.b[k]
  }

  /** The accumulated `tot` after `m` rounds. */
  function Total(q: Coefficients, f: Vec, m: nat): real
    requires q.Valid(|f|) && m <= |f| - 1
  {
    if m == 0 then 0.0 else Total(q, f, m - 1) + q.d[m - 1] * Forward(q, f, m - 1)
  }

  function LastEntry(q: Coefficients, f: Vec): real
    requires q.Valid(|f|)
  {
    (f[|f| - 1] - Total(q, f, |f| - 1)) * q.b[|f| - 1]
  }

  /** Entry `k` of the line after everything. */
  function Back(q: Coefficients, f: Vec, k: nat): real
    requires q.Valid(|f|) && k < |f|
    decreases |f| - k
  {
    var n := |f|;
    if k == n - 1 then LastEntry(q, f)
    else if k == n - 2 then Forward(q, f, k) - q.e[k] * LastEntry(q, f)
    else Forward(q, f, k) - q.c[k] * Back(q, f, k + 1) - q.e[k] * LastEntry(q, f)
  }

  // ------------------------------------------------------------------ why that is the solution

  /** Entry `k` of the one vector `y` with `L y == f`. */
  function Middle(q: Coefficients, f: Vec, k: nat): real
    requires q.Valid(|f|) && k < |f|
  {
    if k == |f| - 1 then LastEntry(q, f) else Forward(q, f, k)
  }

  lemma {:induction false} Unscale(y: real, b: real, f: real)
    requires b != 0.0
    ensures y / b == f <==> y == f * b
  {
    if y == f * b {
      assert f * b / b == f;
    }
    if y / b == f {
      assert y / b * b == y;
    }
  }

  lemma {:induction false} SolveRow(w: real, y: real, b: real, f: real)
    requires b != 0.0
    ensures w + y / b == f <==> y == (f - w) * b
  {
    Unscale(y, b, f - w);
  }

  lemma {:induction false} TotalIsDot(q: Coefficients, f: Vec, y: Vec, m: nat)
    requires q.Valid(|f|) && |y| == |f| && m <= |f| - 1
    requires forall k :: 0 <= k < m ==> y[k] == Forward(q, f, k)
    ensures DotTo(q.d, y, m) == Total(q, f, m)
  {
    if m > 0 {
      TotalIsDot(q, f, y, m - 1);
    }
  }

  lemma {:induction false} FirstRow(q: Coefficients, f: Vec, y: Vec)
    requires q.Valid(|f|) && |y| == |f| && |f| > 1 && q.b[0] != 0.0
    ensures LowerRow(q, y, 0) == f[0] <==> y[0] == Forward(q, f, 0)
  {
    Unscale(y[0], q.b[0], f[0]);
  }

  lemma {:induction false} InnerRow(q: Coefficients, f: Vec, y: Vec, k: nat)
    requires q.Valid(|f|) && |y| == |f| && 0 < k < |f| - 1 && q.b[k] != 0.0 && y[k - 1] == Forward(q, f, k - 1)
    ensures LowerRow(q, y, k) == f[k] <==> y[k] == Forward(q, f, k)
  {
    SolveRow(q.a[k] * Forward(q, f, k - 1), y[k], q.b[k], f[k]);
  }

  lemma {:induction false} LowerStep(q: Coefficients, f: Vec, y: Vec, k: nat)
    requires q.Valid(|f|) && |y| == |f| && k < |f| && q.b[k] != 0.0
    requires forall l :: 0 <= l < k ==> y[l] == Forward(q, f, l)
    ensures LowerRow(q, y, k) == f[k] <==> y[k] == Middle(q, f, k)
  {
    if k == |f| - 1 {
      TotalIsDot(q, f, y, k);
      SolveRow(Total(q, f, k), y[k], q.b[k], f[k]);
    } else if k == 0 {
      FirstRow(q, f, y);
    } else {
      InnerRow(q, f, y, k);
    }
  }

  /** `L` can be solved from the top, row by row. */
  lemma {:induction false} LowerSolved(q: Coefficients, f: Vec, y: Vec, m: nat)
    requires q.Valid(|f|) && |y| == |f| && m <= |f|
    requires forall k :: 0 <= k < |f| ==> q.b[k] != 0.0
    ensures (forall k :: 0 <= k < m ==> LowerRow(q, y, k) == f[k])
       <==> (forall k :: 0 <= k < m ==> y[k] == Middle(q, f, k))
  {
    if m > 0 {
      LowerSolved(q, f, y, m - 1);
      if forall l :: 0 <= l < m - 1 ==> y[l] == Middle(q, f, l) {
        LowerStep(q, f, y, m - 1);
      }
    }
  }

  /** `U` can be solved from the bottom. */
  lemma {:induction false} UpperSolved(q: Coefficients, f: Vec, x: Vec, m: nat)
    requires q.Valid(|f|) && |x| == |f| && m < |f|
    ensures (forall k :: m <= k < |f| ==> UpperRow(q, x, k) == Middle(q, f, k))
       <==> (forall k :: m <= k < |f| ==> x[k] == Back(q, f, k))
    decreases |f| - m
  {
    if m < |f| - 1 {
      UpperSolved(q, f, x, m + 1);
      if forall k :: m + 1 <= k < |f| ==> x[k] == Back(q, f, k) {
        assert x[|f| - 1] == Back(q, f, |f| - 1) && x[m + 1] == Back(q, f, m + 1);
        assert UpperRow(q, x, m) == Middle(q, f, m) <==> x[m] == Back(q, f, m);
      }
    } else {
      assert UpperRow(q, x, m) == x[m] && Middle(q, f, m) == Back(q, f, m);
    }
  }

  /** The sweeps compute the one and only solution of `L (U x) == f`. */
  lemma {:induction false} SolvedExactly(q: Coefficients, f: Vec, x: Vec)
    requires q.Valid(|f|) && |x| == |f|
    requires forall k :: 0 <= k < |f| ==> q.b[k] != 0.0
    ensures Solves(q, x, f) <==> forall k :: 0 <= k < |f| ==> x[k] == Back(q, f, k)
  {
    var y := UpperVec(q, x);
    LowerSolved(q, f, y, |f|);
    UpperSolved(q, f, x, 0);
    assert forall k :: 0 <= k < |f| ==> y[k] == UpperRow(q, x, k);
  }

  // ------------------------------------------------------------------ the loops

  /** All lines have been handled up to `(j0, i0)` in the order of a nest over `j`, then `i`. */
  predicate Visited(i: int, j: int, i0: int, j0: int) {
    j < j0 || (j == j0 && i < i0)
  }

  predicate In(u: array3<real>, i: int, j: int, k: int) {
    0 <= i < u.Length0 && 0 <= j < u.Length1 && 0 <= k < u.Length2
  }

  /** The nest over `j` and `i` that scales plane 0. */
  method FirstPlane(u: array3<real>, b: array<real>)
    requires u.Length2 >= 2 && b.Length == u.Length2
    modifies u
    ensures forall i, j, k :: In(u, i, j, k) ==> u[i, j, k] == if k == 0 then old(u[i, j, 0]) * b[0] else old(u[i, j, k])
  {
    for j := 0 to u.Length1
      invariant forall i', j', k' :: In(u, i', j', k') ==>
                  u[i', j', k'] == if k' == 0 && j' < j then old(u[i', j', 0]) * b[0] else old(u[i', j', k'])
    {
      for i := 0 to u.Length0
        invariant forall i', j', k' :: In(u, i', j', k') ==>
                    u[i', j', k'] == if k' == 0 && Visited(i', j', i, j) then old(u[i', j', 0]) * b[0] else old(u[i', j', k'])
      {
        u[i, j, 0] := u[i, j, 0] * b[0];
      }
    }
  }

  /** Plane `k` of the forward sweep. */
  method ForwardPlane(u: array3<real>, a: array<real>, b: array<real>, k: nat)
    requires a.Length == b.Length == u.Length2 && 1 <= k < u.Length2
    modifies u
    ensures forall i, j, l :: In(u, i, j, l) ==>
              u[i, j, l] == if l == k then (old(u[i, j, k]) - a[k] * old(u[i, j, k - 1])) * b[k] else old(u[i, j, l])
  {
    for j := 0 to u.Length1
      invariant forall i', j', l :: In(u, i', j', l) ==>
                  u[i', j', l] == if l == k && j' < j then (old(u[i', j', k]) - a[k] * old(u[i', j', k - 1])) * b[k] else old(u[i', j', l])
    {
      for i := 0 to u.Length0
        invariant forall i', j', l :: In(u, i', j', l) ==>
                    u[i', j', l] == if l == k && Visited(i', j', i, j) then (old(u[i', j', k]) - a[k] * old(u[i', j', k - 1])) * b[k] else old(u[i', j', l])
      {
        u[i, j, k] := (u[i, j, k] - a[k] * u[i, j, k - 1]) * b[k];
      }
    }
  }

  /** One round of the dot products. */
  method AddRound(tot: array2<real>, u: array3<real>, d: array<real>, k: nat)
    requires d.Length == u.Length2 && k < u.Length2 && tot.Length0 == u.Length0 && tot.Length1 == u.Length1
    modifies tot
    ensures forall i, j :: 0 <= i < u.Length0 && 0 <= j < u.Length1 ==> tot[i, j] == old(tot[i, j]) + d[k] * u[i, j, k]
  {
    for j := 0 to u.Length1
      invariant forall i', j' :: 0 <= i' < u.Length0 && 0 <= j' < u.Length1 ==>
                  tot[i', j'] == if j' < j then old(tot[i', j']) + d[k] * u[i', j', k] else old(tot[i', j'])
    {
      for i := 0 to u.Length0
        invariant forall i', j' :: 0 <= i' < u.Length0 && 0 <= j' < u.Length1 ==>
                    tot[i', j'] == if Visited(i', j', i, j) then old(tot[i', j']) + d[k] * u[i', j', k] else old(tot[i', j'])
      {
        tot[i, j] := tot[i, j] + d[k] * u[i, j, k];
      }
    }
  }

  /** The last plane. */
  method LastPlane(u: array3<real>, tot: array2<real>, b: array<real>)
    requires u.Length2 >= 2 && b.Length == u.Length2 && tot.Length0 == u.Length0 && tot.Length1 == u.Length1
    modifies u
    ensures forall i, j, l :: In(u, i, j, l) ==>
              u[i, j, l] == if l == u.Length2 - 1 then (old(u[i, j, l]) - tot[i, j]) * b[l] else old(u[i, j, l])
  {
    var n := u.Length2;
    for j := 0 to u.Length1
      invariant forall i', j', l :: In(u, i', j', l) ==>
                  u[i', j', l] == if l == n - 1 && j' < j then (old(u[i', j', l]) - tot[i', j']) * b[l] else old(u[i', j', l])
    {
      for i := 0 to u.Length0
        invariant forall i', j', l :: In(u, i', j', l) ==>
                    u[i', j', l] == if l == n - 1 && Visited(i', j', i, j) then (old(u[i', j', l]) - tot[i', j']) * b[l] else old(u[i', j', l])
      {
        u[i, j, n - 1] := (u[i, j, n - 1] - tot[i, j]) * b[n - 1];
      }
    }
  }

  /** Plane `k` of the back substitution; the last but one has no `c` term. */
  method BackPlane(u: array3<real>, c: array<real>, e: array<real>, k: nat)
    requires c.Length == e.Length == u.Length2 && k + 1 < u.Length2
    modifies u
    ensures forall i, j, l :: In(u, i, j, l) ==>
              u[i, j, l] == if l == k then BackEntry(u.Length2, k, old(u[i, j, k]), c[k], old(u[i, j, k + 1]), e[k], old(u[i, j, u.Length2 - 1]))
                            else old(u[i, j, l])
  {
    var n := u.Length2;
    for j := 0 to u.Length1
      invariant forall i', j', l :: In(u, i', j', l) ==>
                  u[i', j', l] == if l == k && j' < j then BackEntry(n, k, old(u[i', j', k]), c[k], old(u[i', j', k + 1]), e[k], old(u[i', j', n - 1]))
                                  else old(u[i', j', l])
    {
      for i := 0 to u.Length0
        invariant forall i', j', l :: In(u, i', j', l) ==>
                    u[i', j', l] == if l == k && Visited(i', j', i, j)
                                    then BackEntry(n, k, old(u[i', j', k]), c[k], old(u[i', j', k + 1]), e[k], old(u[i', j', n - 1]))
                                    else old(u[i', j', l])
      {
        u[i, j, k] := BackEntry(n, k, u[i, j, k], c[k], u[i, j, k + 1], e[k], u[i, j, n - 1]);
      }
    }
  }

  function BackEntry(n: nat, k: nat, y: real, c: real, next: real, e: real, last: real): real {
    if k + 2 == n then y - e * last else y - c * next - e * last
  }

  method Clear(tot: array2<real>)
    modifies tot
    ensures forall i, j :: 0 <= i < tot.Length0 && 0 <= j < tot.Length1 ==> tot[i, j] == 0.0
  {
    for j := 0 to tot.Length1
      invariant forall i', j' :: 0 <= i' < tot.Length0 && 0 <= j' < j ==> tot[i', j'] == 0.0
    {
      for i := 0 to tot.Length0
        invariant forall i', j' :: 0 <= i' < tot.Length0 && 0 <= j' <= j && Visited(i', j', i, j) ==> tot[i', j'] == 0.0
      {
        tot[i, j] := 0.0;
      }
    }
  }

  ghost function LineOf(u: array3<real>, i: int, j: int): (v: Vec)
    requires 0 <= i < u.Length0 && 0 <= j < u.Length1
    reads u
    ensures |v| == u.Length2
  {
    seq(u.Length2, k requires 0 <= k < u.Length2 reads u => u[i, j, k])
  }

  /** Planes before `k` have been swept forward, the others are as they were. */
  ghost predicate SweptTo(u: array3<real>, q: Coefficients, f: (int, int) -> Vec, k: int)
    reads u
  {
    forall i, j, l :: In(u, i, j, l) && |f(i, j)| == u.Length2 && q.Valid(u.Length2) ==>
      u[i, j, l] == if l < k && l < u.Length2 - 1 then Forward(q, f(i, j), l) else f(i, j)[l]
  }

  /** Planes from `k` on hold the solution, the others the forward sweep. */
  ghost predicate SolvedFrom(u: array3<real>, q: Coefficients, f: (int, int) -> Vec, k: int)
    reads u
  {
    forall i, j, l :: In(u, i, j, l) && |f(i, j)| == u.Length2 && q.Valid(u.Length2) ==>
      u[i, j, l] == if l >= k then Back(q, f(i, j), l) else Middle(q, f(i, j), l)
  }

  method ForwardRound(u: array3<real>, a: array<real>, b: array<real>, k: nat, ghost q: Coefficients, ghost f: (int, int) -> Vec)
    requires q.Valid(u.Length2) && q.a == a[..] && q.b == b[..] && 1 <= k < u.Length2 - 1 && SweptTo(u, q, f, k)
    requires forall i, j :: |f(i, j)| == u.Length2
    modifies u
    ensures SweptTo(u, q, f, k + 1)
  {
    ForwardPlane(u, a, b, k);
    forall i, j, l | In(u, i, j, l)
      ensures u[i, j, l] == if l < k + 1 && l < u.Length2 - 1 then Forward(q, f(i, j), l) else f(i, j)[l]
    {
      if l == k {
        assert In(u, i, j, k - 1);
        assert old(u[i, j, k - 1]) == Forward(q, f(i, j), k - 1);
      }
    }
  }

  method ForwardSweep(u: array3<real>, a: array<real>, b: array<real>, ghost q: Coefficients, ghost f: (int, int) -> Vec)
    requires q.Valid(u.Length2) && q.a == a[..] && q.b == b[..] && SweptTo(u, q, f, 0)
    requires forall i, j :: |f(i, j)| == u.Length2
    modifies u
    ensures SweptTo(u, q, f, u.Length2 - 1)
  {
    FirstPlane(u, b);
    assert q.a == a[..] && q.b == b[..];
    for k := 1 to u.Length2 - 1
      invariant SweptTo(u, q, f, k)
    {
      ForwardRound(u, a, b, k, q, f);
    }
  }

  method Accumulate(tot: array2<real>, u: array3<real>, d: array<real>, ghost q: Coefficients, ghost f: (int, int) -> Vec)
    requires q.Valid(u.Length2) && q.d == d[..] && SweptTo(u, q, f, u.Length2 - 1)
    requires tot.Length0 == u.Length0 && tot.Length1 == u.Length1
    requires forall i, j :: |f(i, j)| == u.Length2
    modifies tot
    ensures forall i, j :: 0 <= i < u.Length0 && 0 <= j < u.Length1 ==> tot[i, j] == Total(q, f(i, j), u.Length2 - 1)
  {
    Clear(tot);
    for k := 0 to u.Length2 - 1
      invariant forall i, j :: 0 <= i < u.Length0 && 0 <= j < u.Length1 ==> tot[i, j] == Total(q, f(i, j), k)
    {
      AddRound(tot, u, d, k);
      forall i, j | 0 <= i < u.Length0 && 0 <= j < u.Length1 ensures tot[i, j] == Total(q, f(i, j), k + 1) {
        assert In(u, i, j, k);
      }
    }
  }

  method FinishLast(u: array3<real>, tot: array2<real>, b: array<real>, ghost q: Coefficients, ghost f: (int, int) -> Vec)
    requires q.Valid(u.Length2) && q.b == b[..] && SweptTo(u, q, f, u.Length2 - 1)
    requires tot.Length0 == u.Length0 && tot.Length1 == u.Length1
    requires forall i, j :: |f(i, j)| == u.Length2
    requires forall i, j :: 0 <= i < u.Length0 && 0 <= j < u.Length1 ==> tot[i, j] == Total(q, f(i, j), u.Length2 - 1)
    modifies u
    ensures SolvedFrom(u, q, f, u.Length2 - 1)
  {
    LastPlane(u, tot, b);
  }

  lemma BackStep(q: Coefficients, f: Vec, k: nat)
    requires q.Valid(|f|) && k < |f| - 1
    ensures Back(q, f, k) == BackEntry(|f|, k, Middle(q, f, k), q.c[k], Back(q, f, k + 1), q.e[k], Back(q, f, |f| - 1))
  {
  }

  method BackRound(u: array3<real>, c: array<real>, e: array<real>, k: nat, ghost q: Coefficients, ghost f: (int, int) -> Vec)
    requires q.Valid(u.Length2) && q.c == c[..] && q.e == e[..] && k < u.Length2 - 1 && SolvedFrom(u, q, f, k + 1)
    requires forall i, j :: |f(i, j)| == u.Length2
    modifies u
    ensures SolvedFrom(u, q, f, k)
  {
    ghost var n := u.Length2;
    BackPlane(u, c, e, k);
    forall i, j, l | In(u, i, j, l)
      ensures u[i, j, l] == if l >= k then Back(q, f(i, j), l) else Middle(q, f(i, j), l)
    {
      if l == k {
        assert In(u, i, j, k + 1) && In(u, i, j, n - 1);
        assert old(u[i, j, k + 1]) == Back(q, f(i, j), k + 1) && old(u[i, j, n - 1]) == Back(q, f(i, j), n - 1);
        BackStep(q, f(i, j), k);
      }
    }
  }

  method BackSweep(u: array3<real>, c: array<real>, e: array<real>, ghost q: Coefficients, ghost f: (int, int) -> Vec)
    requires q.Valid(u.Length2) && q.c == c[..] && q.e == e[..] && SolvedFrom(u, q, f, u.Length2 - 1)
    requires forall i, j :: |f(i, j)| == u.Length2
    modifies u
    ensures SolvedFrom(u, q, f, 0)
  {
    for k := u.Length2 - 1 downto 0
      invariant SolvedFrom(u, q, f, k)
    {
      BackRound(u, c, e, k, q, f);
    }
  }

  lemma {:induction false} LineSolved(u: array3<real>, q: Coefficients, f: (int, int) -> Vec, i: int, j: int)
    requires q.Valid(u.Length2) && SolvedFrom(u, q, f, 0) && 0 <= i < u.Length0 && 0 <= j < u.Length1
    requires |f(i, j)| == u.Length2 && forall k :: 0 <= k < u.Length2 ==> q.b[k] != 0.0
    ensures Solves(q, LineOf(u, i, j), f(i, j))
  {
    SolvedExactly(q, f(i, j), LineOf(u, i, j));
    forall k | 0 <= k < u.Length2 ensures LineOf(u, i, j)[k] == Back(q, f(i, j), k) {
      assert In(u, i, j, k);
    }
  }

  lemma {:induction false} AllSolved(u: array3<real>, q: Coefficients, f: (int, int) -> Vec)
    requires q.Valid(u.Length2) && SolvedFrom(u, q, f, 0)
    requires (forall i, j :: |f(i, j)| == u.Length2) && forall k :: 0 <= k < u.Length2 ==> q.b[k] != 0.0
    ensures forall i, j :: 0 <= i < u.Length0 && 0 <= j < u.Length1 ==> Solves(q, LineOf(u, i, j), f(i, j))
  {
    forall i, j | 0 <= i < u.Length0 && 0 <= j < u.Length1 ensures Solves(q, LineOf(u, i, j), f(i, j)) {
      LineSolved(u, q, f, i, j);
    }
  }

  /** All loop nests in turn. */
  method RunSweeps(u: array3<real>, tot: array2<real>, a: array<real>, b: array<real>, c: array<real>, d: array<real>, e: array<real>,
                   ghost q: Coefficients, ghost f: (int, int) -> Vec)
    requires q.Valid(u.Length2) && q.a == a[..] && q.b == b[..] && q.c == c[..] && q.d == d[..] && q.e == e[..]
    requires tot.Length0 == u.Length0 && tot.Length1 == u.Length1
    requires SweptTo(u, q, f, 0) && forall i, j :: |f(i, j)| == u.Length2
    modifies u, tot
    ensures SolvedFrom(u, q, f, 0)
  {
    ForwardSweep(u, a, b, q, f);
    Accumulate(tot, u, d, q, f);
    FinishLast(u, tot, b, q, f);
    BackSweep(u, c, e, q, f);
  }

  /** The whole program: every line ends up solving its own system. */
  method SolveLines(u: array3<real>, tot: array2<real>, a: array<real>, b: array<real>, c: array<real>, d: array<real>, e: array<real>)
    requires Coefficients(a[..], b[..], c[..], d[..], e[..]).Valid(u.Length2)
    requires tot.Length0 == u.Length0 && tot.Length1 == u.Length1
    requires forall k :: 0 <= k < b.Length ==> b[k] != 0.0
    modifies u, tot
    ensures forall i, j :: 0 <= i < u.Length0 && 0 <= j < u.Length1 ==>
              Solves(Coefficients(a[..], b[..], c[..], d[..], e[..]), LineOf(u, i, j), old(LineOf(u, i, j)))
  {
    ghost var q := Coefficients(a[..], b[..], c[..], d[..], e[..]);
    ghost var f: (int, int) -> Vec := Snapshot(u);
    RunSweeps(u, tot, a, b, c, d, e, q, f);
    assert q == Coefficients(a[..], b[..], c[..], d[..], e[..]);
    AllSolved(u, q, f);
  }

  /** All lines as they are now; off the grid, lines of zeros. */
  ghost function Snapshot(u: array3<real>): (f: (int, int) -> Vec)
    reads u
    ensures forall i, j :: |f(i, j)| == u.Length2
    ensures forall i, j :: 0 <= i < u.Length0 && 0 <= j < u.Length1 ==> f(i, j) == LineOf(u, i, j)
  {
    var lines := seq(u.Length0, i requires 0 <= i < u.Length0 reads u =>
      seq(u.Length1, j requires 0 <= j < u.Length1 reads u => LineOf(u, i, j)));
    var (n0, n1, n2) := (u.Length0, u.Length1, u.Length2);
    (i, j) => if 0 <= i < |lines| && 0 <= j < |lines[i]| then lines[i][j] else seq(n2, _ => 0.0)
  }
}
