/**
 LU factorisation with partial pivoting, in place: the upper factor replaces the upper triangle, the
 multipliers the lower one, and `p[k]` records the row that was exchanged with row `k`.  An exchange
 touches columns `k` and up only, so earlier multipliers are never moved.
 */
module LuFac {
  import opened LinAlg

  function Abs(x: real): real {
    if x < 0.0 then -x else x
  }

  /** One recorded step: the pivot row and the multiplier of every row. */
  datatype Step = Step(row: nat, mult: Vec)

  function Swap(y: Vec, k: nat, r: nat): (z: Vec)
    requires k < |y| && r < |y|
    ensures |z| == |y|
  {
    y[k := y[r]][r := y[k]]
  }

  /** Replay of step `k` on a vector: exchange, then subtract multiples of entry `k` below it. */
  function Replay1(s: Step, k: nat, y: Vec): (z: Vec)
    requires k < |y| && s.row < |y| && |s.mult| == |y|
    ensures |z| == |y|
  {
    var w := Swap(y, k, s.row);
    seq(|y|, i requires 0 <= i < |y| => if i > k then w[i] - s.mult[i] * w[k] else w[i])
  }

  predicate GoodStep(s: Step, k: nat, n: nat) {
    k <= s.row < n && |s.mult| == n
  }

  predicate GoodSteps(steps: seq<Step>, n: nat) {
    |steps| <= n && forall k :: 0 <= k < |steps| ==> GoodStep(steps[k], k, n)
  }

  function Replay(steps: seq<Step>, k: nat, y: Vec): (z: Vec)
    requires GoodSteps(steps, |y|) && k <= |steps|
    ensures |z| == |y|
  {
    if k == 0 then y else Replay1(steps[k - 1], k - 1, Replay(steps, k - 1, y))
  }

  /** A replayed step loses nothing. */
  lemma {:induction false} Replay1Injective(s: Step, k: nat, y: Vec, z: Vec)
    requires k < |y| == |z| && s.row < |y| && |s.mult| == |y|
    requires Replay1(s, k, y) == Replay1(s, k, z)
    ensures y == z
  {
    var v, w := Swap(y, k, s.row), Swap(z, k, s.row);
    var v', w' := Replay1(s, k, y), Replay1(s, k, z);
    assert v[k] == v'[k] == w'[k] == w[k];
    forall i | 0 <= i < |y| ensures v[i] == w[i] {
      assert v'[i] == w'[i];
    }
    forall i | 0 <= i < |y| ensures y[i] == z[i] {
      assert y[i] == if i == k then v[s.row] else if i == s.row then v[k] else v[i];
      assert z[i] == if i == k then w[s.row] else if i == s.row then w[k] else w[i];
    }
  }

  lemma {:induction false} ReplayInjective(steps: seq<Step>, k: nat, y: Vec, z: Vec)
    requires |y| == |z| && GoodSteps(steps, |y|) && k <= |steps|
    requires Replay(steps, k, y) == Replay(steps, k, z)
    ensures y == z
  {
    if k > 0 {
      Replay1Injective(steps[k - 1], k - 1, Replay(steps, k - 1, y), Replay(steps, k - 1, z));
      ReplayInjective(steps, k - 1, y, z);
    }
  }

  lemma {:induction false} ReplayZero(steps: seq<Step>, k: nat, n: nat)
    requires GoodSteps(steps, n) && k <= |steps|
    ensures Replay(steps, k, Zero(n)) == Zero(n)
  {
    if k > 0 {
      ReplayZero(steps, k - 1, n);
    }
  }

  // ------------------------------------------------------------------ one step on the whole matrix

  /** The matrix after exchanging rows `k` and `r`. */
  function SwapRows(m: Mat, k: nat, r: nat): (z: Mat)
    requires IsMat(m, |m|, |m|) && k < |m| && r < |m|
    ensures IsMat(z, |m|, |m|)
  {
    m[k := m[r]][r := m[k]]
  }

  /** The matrix with `mult[i]` times row `k` subtracted from every row `i > k`. */
  function Eliminate(m: Mat, k: nat, mult: Vec, n: nat): (z: Mat)
    requires IsMat(m, n, n) && k < n && |mult| == n
    ensures IsMat(z, n, n)
  {
    seq(n, i requires 0 <= i < n =>
      seq(n, j requires 0 <= j < n => if i > k then m[i][j] - mult[i] * m[k][j] else m[i][j]))
  }

  /** Steps on the matrix and replay on `A x` stay in step. */
  lemma {:induction false} StepReplays(m: Mat, n: nat, s: Step, k: nat, x: Vec)
    requires IsMat(m, n, n) && k < n && s.row < n && |s.mult| == n && |x| == n
    ensures MatVec(Eliminate(SwapRows(m, k, s.row), k, s.mult, n), x) == Replay1(s, k, MatVec(m, x))
  {
    var w := SwapRows(m, k, s.row);
    var z := Eliminate(w, k, s.mult, n);
    var y := Swap(MatVec(m, x), k, s.row);
    assert MatVec(w, x) == y;
    forall i | 0 <= i < n ensures MatVec(z, x)[i] == Replay1(s, k, MatVec(m, x))[i] {
      if i > k {
        DotLinear(z[i], 1.0, w[i], -s.mult[i], w[k], x, n);
        assert Dot(w[i], x) == y[i] && Dot(w[k], x) == y[k];
      } else {
        DotSame(z[i], x, w[i], x, n);
        assert MatVec(w, x)[i] == y[i];
      }
    }
  }

  // ------------------------------------------------------------------ zero pivots

  /** The first `k` columns of `a` are independent. */
  ghost predicate Independent(a: Mat, n: nat, k: nat)
    requires IsMat(a, n, n)
  {
    forall x: Vec {:trigger MatVec(a, x)} ::
      |x| == n && (forall j :: k <= j < n ==> x[j] == 0.0) && MatVec(a, x) == Zero(n) ==> x == Zero(n)
  }

  /** Rows below `k` are in upper triangular form with a nonzero diagonal. */
  ghost predicate Triangular(m: Mat, n: nat, k: nat) {
    && IsMat(m, n, n) && k <= n
    && (forall i, j :: 0 <= j < i < n && j < k ==> m[i][j] == 0.0)
    && (forall i :: 0 <= i < k ==> m[i][i] != 0.0)
  }

  /**
   A combination of the first `k + 1` columns that rows `lo .. k-1` send to zero, built by back
   substitution.
   */
  lemma {:induction false} Combination(m: Mat, n: nat, k: nat, lo: nat) returns (x: Vec)
    requires Triangular(m, n, k) && lo <= k < n
    ensures |x| == n && x[k] == 1.0
    ensures forall j :: 0 <= j < n && (j < lo || k < j) ==> x[j] == 0.0
    ensures forall i :: lo <= i < k ==> Dot(m[i], x) == 0.0
    decreases k - lo
  {
    if lo == k {
      x := Zero(n)[k := 1.0];
    } else {
      var y := Combination(m, n, k, lo + 1);
      var v := -Dot(m[lo], y) / m[lo][lo];
      x := y[lo := v];
      var e := Zero(n)[lo := v];
      forall i | lo <= i < k ensures Dot(m[i], x) == 0.0 {
        DotLinearRight(m[i], x, 1.0, y, 1.0, e, n);
        DotCommutes(m[i], e, n);
        DotPick(e, m[i], lo, n);
        if i == lo {
          assert v * m[lo][lo] == -Dot(m[lo], y);
        }
      }
    }
  }

  /** If the pivot column is zero from the diagonal down, the columns up to it are dependent. */
  lemma {:induction false} ZeroColumn(m: Mat, n: nat, k: nat) returns (x: Vec)
    requires Triangular(m, n, k) && k < n
    requires forall i :: k <= i < n ==> m[i][k] == 0.0
    ensures |x| == n && x[k] == 1.0
    ensures forall j :: k < j < n ==> x[j] == 0.0
    ensures MatVec(m, x) == Zero(n)
  {
    x := Combination(m, n, k, 0);
    forall i | 0 <= i < n ensures Dot(m[i], x) == 0.0 {
      if i >= k {
        DotZero(m[i], x, n);
      }
    }
  }

  /** If there is a nonzero diagonal all the way, the columns are independent. */
  lemma {:induction false} TriangularInjective(m: Mat, n: nat, k: nat, x: Vec, lo: nat)
    requires Triangular(m, n, k) && |x| == n && lo <= k
    requires forall j :: k <= j < n ==> x[j] == 0.0
    requires MatVec(m, x) == Zero(n)
    ensures forall j :: lo <= j < n ==> x[j] == 0.0
    decreases k - lo
  {
    if lo < k {
      TriangularInjective(m, n, k, x, lo + 1);
      DotCommutes(m[lo], x, n);
      DotZero(m[lo], x, lo);
      DotTail(m[lo], x, lo + 1, n);
      assert MatVec(m, x)[lo] == Dot(m[lo], x) == 0.0;
      assert DotTo(m[lo], x, lo + 1) == m[lo][lo] * x[lo];
    }
  }

  // ------------------------------------------------------------------ the program

  /** `m` is what the array stands for once `k` columns are done: multipliers read as zeros. */
  ghost predicate Represents(a: array2<real>, m: Mat, n: nat, k: nat)
    reads a
  {
    && a.Length0 == a.Length1 == n && IsMat(m, n, n)
    && (forall i, j :: 0 <= i < n && 0 <= j < n && (j >= k || j >= i) ==> a[i, j] == m[i][j])
    && (forall i, j :: 0 <= j < i < n && j < k ==> m[i][j] == 0.0)
  }

  /** The first loop: the row of the first entry of largest magnitude at or below the diagonal. */
  method FindPivot(a: array2<real>, p: array<nat>, n: nat, k: nat)
    requires a.Length0 == a.Length1 == n && p.Length == n && k < n
    modifies p
    ensures forall i :: 0 <= i < n && i != k ==> p[i] == old(p[i])
    ensures k <= p[k] < n
    ensures forall i :: k <= i < n ==> Abs(a[i, k]) <= Abs(a[p[k], k])
    ensures forall i :: k <= i < p[k] ==> Abs(a[i, k]) < Abs(a[p[k], k])
  {
    p[k] := k;
    var mu := Abs(a[k, k]);
    for i := k + 1 to n
      invariant forall l :: 0 <= l < n && l != k ==> p[l] == old(p[l])
      invariant k <= p[k] < i && mu == Abs(a[p[k], k])
      invariant forall l :: k <= l < i ==> Abs(a[l, k]) <= mu
      invariant forall l :: k <= l < p[k] ==> Abs(a[l, k]) < mu
    {
      if mu < Abs(a[i, k]) {
        mu := Abs(a[i, k]);
        p[k] := i;
      }
    }
  }

  /** The second loop: exchange rows `k` and `r`, from column `k` on. */
  method SwapTails(a: array2<real>, n: nat, k: nat, r: nat)
    requires a.Length0 == a.Length1 == n && k <= r < n
    modifies a
    ensures forall i, j :: 0 <= i < n && 0 <= j < n ==>
              a[i, j] == if j < k then old(a[i, j])
                         else if i == k then old(a[r, j]) else if i == r then old(a[k, j]) else old(a[i, j])
  {
    for j := k to n
      invariant forall i, l :: 0 <= i < n && 0 <= l < n ==>
                  a[i, l] == if l < k || l >= j then old(a[i, l])
                             else if i == k then old(a[r, l]) else if i == r then old(a[k, l]) else old(a[i, l])
    {
      var t := a[k, j];
      a[k, j] := a[r, j];
      a[r, j] := t;
    }
  }

  /** The third loop: turn the pivot column into multipliers. */
  method ScaleColumn(a: array2<real>, n: nat, k: nat)
    requires a.Length0 == a.Length1 == n && k < n && a[k, k] != 0.0
    modifies a
    ensures forall i, j :: 0 <= i < n && 0 <= j < n ==>
              a[i, j] == if i > k && j == k then old(a[i, k]) / old(a[k, k]) else old(a[i, j])
  {
    for i := k + 1 to n
      invariant forall l, j :: 0 <= l < n && 0 <= j < n ==>
                  a[l, j] == if k < l < i && j == k then old(a[l, k]) / old(a[k, k]) else old(a[l, j])
    {
      a[i, k] := a[i, k] / a[k, k];
    }
  }

  /** The last loops: subtract multiples of the pivot row, column by column. */
  method UpdateRest(a: array2<real>, n: nat, k: nat)
    requires a.Length0 == a.Length1 == n && k < n
    modifies a
    ensures forall i, j :: 0 <= i < n && 0 <= j < n ==>
              a[i, j] == if i > k && j > k then old(a[i, j]) - old(a[i, k]) * old(a[k, j]) else old(a[i, j])
  {
    for j := k + 1 to n
      invariant forall i, l :: 0 <= i < n && 0 <= l < n ==>
                  a[i, l] == if i > k && k < l < j then old(a[i, l]) - old(a[i, k]) * old(a[k, l]) else old(a[i, l])
    {
      for i := k + 1 to n
        invariant forall h, l :: 0 <= h < n && 0 <= l < n ==>
                    a[h, l] == if h > k && (k < l < j || (l == j && h < i)) then old(a[h, l]) - old(a[h, k]) * old(a[k, l])
                               else old(a[h, l])
      {
        a[i, j] := a[i, j] - a[i, k] * a[k, j];
      }
    }
  }

  /** The multipliers of step `k` when the pivot row is `r`; zero where there is none. */
  function Multipliers(m: Mat, n: nat, k: nat, r: nat): (v: Vec)
    requires IsMat(m, n, n) && k < n && r < n && m[r][k] != 0.0
    ensures |v| == n
  {
    var w := SwapRows(m, k, r);
    seq(n, i requires 0 <= i < n => if i > k then w[i][k] / w[k][k] else 0.0)
  }

  function NextMat(m: Mat, n: nat, k: nat, r: nat): (z: Mat)
    requires IsMat(m, n, n) && k < n && r < n && m[r][k] != 0.0
    ensures IsMat(z, n, n)
  {
    Eliminate(SwapRows(m, k, r), k, Multipliers(m, n, k, r), n)
  }

  /** Elimination clears the pivot column and leaves the cleared columns clear. */
  lemma {:induction false} NextZeros(m: Mat, n: nat, k: nat, r: nat, i: nat, j: nat)
    requires IsMat(m, n, n) && k <= r < n && m[r][k] != 0.0
    requires forall i, j :: 0 <= j < i < n && j < k ==> m[i][j] == 0.0
    requires j < i < n && j <= k
    ensures NextMat(m, n, k, r)[i][j] == 0.0
  {
    var w, f := SwapRows(m, k, r), Multipliers(m, n, k, r);
    if j == k {
      assert f[i] * w[k][k] == w[i][k];
    } else {
      assert w[i][j] == 0.0;
      assert i > k ==> w[k][j] == 0.0;
    }
  }

  /** One round of the outer loop after the pivot search, entry by entry. */
  method RoundEntries(a: array2<real>, n: nat, k: nat, r: nat, ghost w: Mat)
    requires a.Length0 == a.Length1 == n && k <= r < n && IsMat(w, n, n)
    requires forall i, j :: 0 <= i < n && k <= j < n ==>
               w[i][j] == if i == k then a[r, j] else if i == r then a[k, j] else a[i, j]
    requires w[k][k] != 0.0
    modifies a
    ensures forall i, j :: 0 <= i < n && 0 <= j < n ==>
              a[i, j] == if j < k then old(a[i, j])
                         else if i <= k then w[i][j]
                         else if j == k then w[i][k] / w[k][k]
                         else w[i][j] - w[i][k] / w[k][k] * w[k][j]
  {
    SwapTails(a, n, k, r);
    ScaleColumn(a, n, k);
    UpdateRest(a, n, k);
  }

  /** One round of the outer loop after the pivot search. */
  method EliminateColumn(a: array2<real>, n: nat, k: nat, r: nat, ghost m: Mat)
    requires Represents(a, m, n, k) && k <= r < n && m[r][k] != 0.0
    modifies a
    ensures Represents(a, NextMat(m, n, k, r), n, k + 1)
    ensures forall i :: k < i < n ==> a[i, k] == Multipliers(m, n, k, r)[i]
    ensures forall i, j :: 0 <= i < n && 0 <= j < k ==> a[i, j] == old(a[i, j])
  {
    RoundEntries(a, n, k, r, SwapRows(m, k, r));
    forall i, j | 0 <= j < i < n && j < k + 1 ensures NextMat(m, n, k, r)[i][j] == 0.0 {
      NextZeros(m, n, k, r, i, j);
    }
  }

  // ------------------------------------------------------------------ bounds

  /** `2^k * c`. */
  function Doubled(k: nat, c: real): real {
    if k == 0 then c else 2.0 * Doubled(k - 1, c)
  }

  /** After `k` rounds row `i` has grown by at most a factor two per round it took part in. */
  ghost predicate Grown(m: Mat, n: nat, k: nat, c: real) {
    && IsMat(m, n, n)
    && forall i, j :: 0 <= i < n && 0 <= j < n ==> Abs(m[i][j]) <= Doubled(if i < k then i else k, c)
  }

  lemma QuotientBetween(x: real, y: real)
    requires y > 0.0 && -y <= x <= y
    ensures -1.0 <= x / y <= 1.0
  {
  }

  lemma {:induction false} QuotientAtMostOne(x: real, y: real)
    requires y != 0.0 && Abs(x) <= Abs(y)
    ensures Abs(x / y) <= 1.0
  {
    if y > 0.0 {
      QuotientBetween(x, y);
    } else {
      QuotientBetween(-x, -y);
      assert (-x) / (-y) == x / y;
    }
  }

  lemma {:induction false} ProductShrinks(f: real, y: real, c: real)
    requires Abs(f) <= 1.0 && Abs(y) <= c
    ensures Abs(f * y) <= c
  {
    if y >= 0.0 {
      assert f * y <= 1.0 * y && -1.0 * y <= f * y;
    } else {
      assert f * y <= -1.0 * y && 1.0 * y <= f * y;
    }
  }

  /** With the largest entry as pivot, multipliers stay within one ... */
  lemma {:induction false} MultipliersSmall(m: Mat, n: nat, k: nat, r: nat, i: nat)
    requires IsMat(m, n, n) && k <= r < n && m[r][k] != 0.0 && i < n
    requires forall i :: k <= i < n ==> Abs(m[i][k]) <= Abs(m[r][k])
    ensures Abs(Multipliers(m, n, k, r)[i]) <= 1.0
  {
    var w := SwapRows(m, k, r);
    if i > k {
      QuotientAtMostOne(w[i][k], w[k][k]);
    }
  }

  lemma {:induction false} EntryGrowth(x: real, f: real, y: real, c: real)
    requires Abs(x) <= c && Abs(f) <= 1.0 && Abs(y) <= c
    ensures Abs(x - f * y) <= 2.0 * c && Abs(x) <= 2.0 * c
  {
    ProductShrinks(f, y, c);
    var t := f * y;
    assert Abs(x - t) <= Abs(x) + Abs(t);
  }

  /** ... and entries at most double. */
  lemma {:induction false} NextEntrySmall(m: Mat, n: nat, k: nat, r: nat, i: nat, j: nat, c: real)
    requires IsMat(m, n, n) && k <= r < n && m[r][k] != 0.0 && i < n && j < n
    requires Abs(Multipliers(m, n, k, r)[i]) <= 1.0
    requires Abs(SwapRows(m, k, r)[i][j]) <= c && Abs(SwapRows(m, k, r)[k][j]) <= c
    ensures Abs(NextMat(m, n, k, r)[i][j]) <= 2.0 * c
  {
    var w, f := SwapRows(m, k, r), Multipliers(m, n, k, r);
    EntryGrowth(w[i][j], f[i], w[k][j], c);
  }

  lemma {:induction false} GrowthStep(m: Mat, n: nat, k: nat, r: nat, c: real)
    requires IsMat(m, n, n) && k <= r < n && m[r][k] != 0.0
    requires forall i :: k <= i < n ==> Abs(m[i][k]) <= Abs(m[r][k])
    requires Grown(m, n, k, c)
    ensures Grown(NextMat(m, n, k, r), n, k + 1, c)
  {
    var z, w := NextMat(m, n, k, r), SwapRows(m, k, r);
    forall i, j | 0 <= i < n && 0 <= j < n
      ensures Abs(z[i][j]) <= Doubled(if i < k + 1 then i else k + 1, c)
    {
      assert Abs(m[i][j]) <= Doubled(if i < k then i else k, c);
      assert Abs(m[k][j]) <= Doubled(k, c) && Abs(m[r][j]) <= Doubled(k, c);
      if i <= k {
        assert z[i][j] == w[i][j];
      } else {
        MultipliersSmall(m, n, k, r, i);
        NextEntrySmall(m, n, k, r, i, j, Doubled(k, c));
      }
    }
  }

  // ------------------------------------------------------------------ the whole factorisation

  /** The upper factor, read off the final array. */
  function Upper(f: Mat, n: nat): (m: Mat)
    requires IsMat(f, n, n)
    ensures IsMat(m, n, n)
  {
    seq(n, i requires 0 <= i < n => seq(n, j requires 0 <= j < n => if j >= i then f[i][j] else 0.0))
  }

  /** The swaps and multipliers, read off the final array and `p`. */
  function StepsOf(f: Mat, p: seq<nat>, n: nat): (steps: seq<Step>)
    requires IsMat(f, n, n) && |p| == n
    ensures |steps| == if n == 0 then 0 else n - 1
  {
    seq(if n == 0 then 0 else n - 1, l requires 0 <= l < n - 1 =>
      Step(p[l], seq(n, i requires 0 <= i < n => if i > l then f[i][l] else 0.0)))
  }

  /** The final array and `p` are factors of `a0`: the upper factor times `x` is the replay of the swaps and multipliers on `a0 x`. */
  ghost predicate Factors(f: Mat, p: seq<nat>, n: nat, a0: Mat) {
    && IsMat(f, n, n) && |p| == n && IsMat(a0, n, n) && GoodSteps(StepsOf(f, p, n), n)
    && Replays(Upper(f, n), a0, n, StepsOf(f, p, n))
  }

  /** Two lists of steps with the same rows and the same multipliers below the diagonal. */
  ghost predicate SameBelow(steps: seq<Step>, more: seq<Step>, n: nat) {
    && |steps| == |more| && GoodSteps(steps, n) && GoodSteps(more, n)
    && (forall l :: 0 <= l < |steps| ==> steps[l].row == more[l].row)
    && (forall i, l :: 0 <= l < |steps| && l < i < n ==> steps[l].mult[i] == more[l].mult[i])
  }

  lemma {:induction false} Replay1Same(s: Step, t: Step, k: nat, y: Vec)
    requires GoodStep(s, k, |y|) && GoodStep(t, k, |y|) && s.row == t.row
    requires forall i :: k < i < |y| ==> s.mult[i] == t.mult[i]
    ensures Replay1(s, k, y) == Replay1(t, k, y)
  {
    var u, v := Replay1(s, k, y), Replay1(t, k, y);
    var w := Swap(y, k, s.row);
    forall i | 0 <= i < |y| ensures u[i] == v[i] {
      if i > k {
        assert u[i] == w[i] - s.mult[i] * w[k];
      }
    }
  }

  /** Nothing else of the steps matters for the replay. */
  lemma {:induction false} ReplaySame(steps: seq<Step>, more: seq<Step>, k: nat, y: Vec)
    requires SameBelow(steps, more, |y|) && k <= |steps|
    ensures Replay(steps, k, y) == Replay(more, k, y)
  {
    if k > 0 {
      ReplaySame(steps, more, k - 1, y);
      Replay1Same(steps[k - 1], more[k - 1], k - 1, Replay(steps, k - 1, y));
    }
  }

  /** What was recorded can be read off the array again. */
  lemma {:induction false} RecordedIsFactors(a: array2<real>, p: array<nat>, n: nat, a0: Mat, steps: seq<Step>)
    requires n >= 1 && Recorded(a, p, n, n - 1, steps) && IsMat(a0, n, n) && Replays(Upper(MatOf(a), n), a0, n, steps)
    ensures Factors(MatOf(a), p[..], n, a0)
  {
    var f := MatOf(a);
    var read := StepsOf(f, p[..], n);
    assert SameBelow(steps, read, n);
    forall x: Vec | |x| == n ensures ReplaysAt(Upper(f, n), a0, n, read, x) {
      assert ReplaysAt(Upper(f, n), a0, n, steps, x);
      ReplaySame(steps, read, n - 1, MatVec(a0, x));
    }
  }

  /** `steps` is what the array and `p` have recorded in the first `k` rounds. */
  ghost predicate Recorded(a: array2<real>, p: array<nat>, n: nat, k: nat, steps: seq<Step>)
    reads a, p
  {
    && a.Length0 == a.Length1 == p.Length == n && k == |steps| && GoodSteps(steps, n)
    && (forall l :: 0 <= l < k ==> steps[l].row == p[l])
    && (forall i, l :: 0 <= l < k && l < i < n ==> steps[l].mult[i] == a[i, l])
  }

  /** `m x` is the replay of the recorded steps on `a0 x` ... */
  predicate ReplaysAt(m: Mat, a0: Mat, n: nat, steps: seq<Step>, x: Vec)
    requires IsMat(m, n, n) && IsMat(a0, n, n) && GoodSteps(steps, n) && |x| == n
  {
    MatVec(m, x) == Replay(steps, |steps|, MatVec(a0, x))
  }

  /** ... for every `x`. */
  ghost predicate Replays(m: Mat, a0: Mat, n: nat, steps: seq<Step>)
    requires IsMat(m, n, n) && IsMat(a0, n, n) && GoodSteps(steps, n)
  {
    forall x: Vec {:trigger ReplaysAt(m, a0, n, steps, x)} :: |x| == n ==> ReplaysAt(m, a0, n, steps, x)
  }

  lemma {:induction false} ReplayPrefix(steps: seq<Step>, more: seq<Step>, k: nat, y: Vec)
    requires GoodSteps(steps, |y|) && GoodSteps(more, |y|) && k <= |steps| && steps <= more
    ensures Replay(more, k, y) == Replay(steps, k, y)
  {
    if k > 0 {
      ReplayPrefix(steps, more, k - 1, y);
    }
  }

  lemma {:induction false} ReplayOneMore(steps: seq<Step>, more: seq<Step>, s: Step, y: Vec)
    requires GoodSteps(steps, |y|) && GoodSteps(more, |y|) && GoodStep(s, |steps|, |y|) && more == steps + [s]
    ensures Replay(more, |more|, y) == Replay1(s, |steps|, Replay(steps, |steps|, y))
  {
    ReplayPrefix(steps, more, |steps|, y);
  }

  lemma {:induction false} ReplaysNextAt(m: Mat, a0: Mat, n: nat, steps: seq<Step>, more: seq<Step>, s: Step, x: Vec)
    requires GoodSteps(steps, n) && GoodSteps(more, n) && GoodStep(s, |steps|, n) && more == steps + [s]
    requires IsMat(m, n, n) && IsMat(a0, n, n) && |x| == n
    requires ReplaysAt(m, a0, n, steps, x)
    ensures ReplaysAt(Eliminate(SwapRows(m, |steps|, s.row), |steps|, s.mult, n), a0, n, more, x)
  {
    StepReplays(m, n, s, |steps|, x);
    ReplayOneMore(steps, more, s, MatVec(a0, x));
  }

  lemma {:induction false} ReplaysNext(m: Mat, a0: Mat, n: nat, steps: seq<Step>, more: seq<Step>, s: Step)
    requires GoodSteps(steps, n) && GoodSteps(more, n) && GoodStep(s, |steps|, n) && more == steps + [s]
    requires IsMat(m, n, n) && IsMat(a0, n, n) && Replays(m, a0, n, steps)
    ensures Replays(Eliminate(SwapRows(m, |steps|, s.row), |steps|, s.mult, n), a0, n, more)
  {
    var z := Eliminate(SwapRows(m, |steps|, s.row), |steps|, s.mult, n);
    forall x: Vec | |x| == n ensures ReplaysAt(z, a0, n, more, x) {
      ReplaysNextAt(m, a0, n, steps, more, s, x);
    }
  }

  // ------------------------------------------------------------------ putting it together

  /** A zero pivot in round `k` means that the first `k + 1` columns were dependent to begin with. */
  lemma {:induction false} ZeroPivotDependent(m: Mat, a0: Mat, n: nat, steps: seq<Step>)
    requires IsMat(a0, n, n) && GoodSteps(steps, n) && |steps| < n - 1
    requires Triangular(m, n, |steps|) && Replays(m, a0, n, steps)
    requires forall i :: |steps| <= i < n ==> m[i][|steps|] == 0.0
    ensures !Independent(a0, n, n - 1)
  {
    var x := ZeroColumn(m, n, |steps|);
    assert ReplaysAt(m, a0, n, steps, x);
    ReplayZero(steps, |steps|, n);
    ReplayInjective(steps, |steps|, MatVec(a0, x), Zero(n));
    assert x[|steps|] != Zero(n)[|steps|];
  }

  lemma {:induction false} NonzeroPivotsIndependent(m: Mat, a0: Mat, n: nat, steps: seq<Step>)
    requires IsMat(a0, n, n) && GoodSteps(steps, n) && |steps| == n - 1
    requires Triangular(m, n, n - 1) && Replays(m, a0, n, steps)
    ensures Independent(a0, n, n - 1)
  {
    forall x: Vec | |x| == n && (forall j :: n - 1 <= j < n ==> x[j] == 0.0) && MatVec(a0, x) == Zero(n)
      ensures x == Zero(n)
    {
      assert ReplaysAt(m, a0, n, steps, x);
      ReplayZero(steps, n - 1, n);
      TriangularInjective(m, n, n - 1, x, 0);
    }
  }

  /** What holds before round `k`. */
  ghost predicate Ready(a: array2<real>, p: array<nat>, n: nat, a0: Mat, m: Mat, steps: seq<Step>, c: real)
    reads a, p
  {
    && IsMat(a0, n, n) && Represents(a, m, n, |steps|) && Recorded(a, p, n, |steps|, steps)
    && Triangular(m, n, |steps|) && Replays(m, a0, n, steps) && Grown(m, n, |steps|, c)
    && (forall i, l :: 0 <= l < |steps| && l < i < n ==> Abs(a[i, l]) <= 1.0)
  }

  /** One round of the outer loop. */
  method Round(a: array2<real>, p: array<nat>, n: nat, k: nat, ghost a0: Mat, ghost m: Mat, ghost steps: seq<Step>, ghost c: real)
    returns (zero: bool, ghost m': Mat, ghost steps': seq<Step>)
    requires Ready(a, p, n, a0, m, steps, c) && k == |steps| < n - 1
    modifies a, p
    ensures zero ==> !Independent(a0, n, n - 1)
    ensures !zero ==> |steps'| == k + 1 && Ready(a, p, n, a0, m', steps', c)
  {
    FindPivot(a, p, n, k);
    var r := p[k];
    m', steps' := m, steps;
    zero := a[r, k] == 0.0;
    if zero {
      ZeroPivotDependent(m, a0, n, steps);
      return;
    }
    ghost var s := Step(r, Multipliers(m, n, k, r));
    steps' := steps + [s];
    m' := NextMat(m, n, k, r);
    ReplaysNext(m, a0, n, steps, steps', s);
    GrowthStep(m, n, k, r, c);
    forall i | 0 <= i < n ensures Abs(s.mult[i]) <= 1.0 {
      MultipliersSmall(m, n, k, r, i);
    }
    EliminateColumn(a, n, k, r, m);
  }

  /**
   The whole factorisation.  `zeroPivot` tells whether some round would divide by zero, which happens
   exactly if the first `n - 1` columns are dependent; `c` is any bound on the entries.
   */
  method Factor(a: array2<real>, p: array<nat>, n: nat, ghost c: real) returns (zeroPivot: bool)
    requires a.Length0 == a.Length1 == p.Length == n && n >= 1
    requires forall i, j :: 0 <= i < n && 0 <= j < n ==> Abs(a[i, j]) <= c
    modifies a, p
    ensures zeroPivot <==> !Independent(old(MatOf(a)), n, n - 1)
    ensures !zeroPivot ==> Factors(MatOf(a), p[..], n, old(MatOf(a)))
    ensures !zeroPivot ==> forall k :: 0 <= k < n - 1 ==> k <= p[k] < n && a[k, k] != 0.0
    ensures !zeroPivot ==> forall i, j :: 0 <= j < i < n ==> Abs(a[i, j]) <= 1.0
    ensures !zeroPivot ==> forall i, j :: 0 <= i <= j < n ==> Abs(a[i, j]) <= Doubled(i, c)
  {
    ghost var a0 := MatOf(a);
    ghost var m := a0;
    ghost var steps: seq<Step> := [];
    zeroPivot := false;
    ReadyStart(a, p, n, c);
    for k := 0 to n - 1
      invariant |steps| == k && Ready(a, p, n, a0, m, steps, c)
    {
      zeroPivot, m, steps := Round(a, p, n, k, a0, m, steps, c);
      if zeroPivot {
        return;
      }
    }
    ReadyEnd(a, p, n, a0, m, steps, c);
  }

  lemma {:induction false} ReadyStart(a: array2<real>, p: array<nat>, n: nat, c: real)
    requires a.Length0 == a.Length1 == p.Length == n && n >= 1
    requires forall i, j :: 0 <= i < n && 0 <= j < n ==> Abs(a[i, j]) <= c
    ensures Ready(a, p, n, MatOf(a), MatOf(a), [], c)
  {
    var a0 := MatOf(a);
    forall x: Vec | |x| == n ensures ReplaysAt(a0, a0, n, [], x) {
    }
  }

  lemma {:induction false} ReadyEnd(a: array2<real>, p: array<nat>, n: nat, a0: Mat, m: Mat, steps: seq<Step>, c: real)
    requires n >= 1 && |steps| == n - 1 && Ready(a, p, n, a0, m, steps, c)
    ensures Independent(a0, n, n - 1) && Upper(MatOf(a), n) == m && Factors(MatOf(a), p[..], n, a0)
    ensures forall k :: 0 <= k < n - 1 ==> k <= p[k] < n && a[k, k] != 0.0
    ensures forall i, j :: 0 <= j < i < n ==> Abs(a[i, j]) <= 1.0
    ensures forall i, j :: 0 <= i <= j < n ==> Abs(a[i, j]) <= Doubled(i, c)
  {
    NonzeroPivotsIndependent(m, a0, n, steps);
    forall i | 0 <= i < n ensures Upper(MatOf(a), n)[i] == m[i] {
    }
    assert Upper(MatOf(a), n) == m;
    RecordedIsFactors(a, p, n, a0, steps);
  }

  function Unit(n: nat, j: nat): (x: Vec)
    ensures |x| == n
  {
    seq(n, i => Delta(i, j))
  }

  lemma {:induction false} UnitPicks(m: Mat, n: nat, i: nat, j: nat)
    requires IsMat(m, n, n) && i < n && j < n
    ensures MatVec(m, Unit(n, j))[i] == m[i][j]
  {
    DotCommutes(m[i], Unit(n, j), n);
    DotPick(Unit(n, j), m[i], j, n);
  }

  /** The final array and `p` determine the matrix they came from. */
  lemma {:induction false} FactorsDetermine(f: Mat, p: seq<nat>, n: nat, a0: Mat, a1: Mat)
    requires Factors(f, p, n, a0) && Factors(f, p, n, a1)
    ensures a0 == a1
  {
    var u, steps := Upper(f, n), StepsOf(f, p, n);
    forall i, j | 0 <= i < n && 0 <= j < n ensures a0[i][j] == a1[i][j] {
      var x := Unit(n, j);
      assert ReplaysAt(u, a0, n, steps, x) && ReplaysAt(u, a1, n, steps, x);
      ReplayInjective(steps, |steps|, MatVec(a0, x), MatVec(a1, x));
      UnitPicks(a0, n, i, j);
      UnitPicks(a1, n, i, j);
    }
    forall i | 0 <= i < n ensures a0[i] == a1[i] {
    }
  }
}
