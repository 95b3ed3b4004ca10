/**
 One grid line of the BT solver: a block-tridiagonal system

     A[i] x[i-1] + B[i] x[i] + C[i] x[i+1] == r[i]

 solved by forward elimination and back substitution.  The x, y and z sweeps all solve such lines.
 */
module BTLine {
  import opened LinAlg
  import opened GaussJordan
  import opened BTKernels

  /** `lhs[i][j][k]`: the blocks AA, BB and CC of one cell. */
  datatype Block = Block(a: Mat, b: Mat, c: Mat)

  predicate IsBlock(k: Block) {
    IsMat(k.a, 5, 5) && IsMat(k.b, 5, 5) && IsMat(k.c, 5, 5)
  }

  predicate IsLine(l: seq<Block>) {
    |l| >= 2 && forall i :: 0 <= i < |l| ==> IsBlock(l[i])
  }

  predicate IsField(l: seq<Block>, r: seq<Vec>) {
    |r| == |l| && forall i :: 0 <= i < |r| ==> |r[i]| == 5
  }

  /** Row `i` of the system applied to `x`; the first A and the last C are never looked at. */
  function Row(l: seq<Block>, x: seq<Vec>, i: nat): (y: Vec)
    requires IsLine(l) && IsField(l, x) && i < |l|
    ensures |y| == 5
  {
    var d := MatVec(l[i].b, x[i]);
    var e := if i == 0 then d else Add(MatVec(l[i].a, x[i - 1]), d);
    if i == |l| - 1 then e else Add(e, MatVec(l[i].c, x[i + 1]))
  }

  /** `x` solves the line with right-hand side `r`. */
  predicate LineSystem(l: seq<Block>, r: seq<Vec>, x: seq<Vec>)
    requires IsLine(l)
  {
    IsField(l, r) && IsField(l, x) && forall i :: 0 <= i < |l| ==> Row(l, x, i) == r[i]
  }

  // ------------------------------------------------------------------ what the sweeps compute

  /** The diagonal block after subtracting A times the previous cell's CC. */
  function Reduced(l: seq<Block>, i: nat): (m: Mat)
    requires IsLine(l) && i < |l|
    ensures IsMat(m, 5, 5)
    decreases i, 0
  {
    if i == 0 then l[0].b else MatSub(l[i].b, MatMul(l[i].a, Upper(l, i - 1), 5), 5)
  }

  /** The block CC after the forward sweep. */
  function Upper(l: seq<Block>, i: nat): (m: Mat)
    requires IsLine(l) && i < |l|
    ensures IsMat(m, 5, 5)
    decreases i, 1
  {
    Solve(Reduced(l, i), l[i].c, 5)
  }

  function ReducedRhs(l: seq<Block>, r: seq<Vec>, i: nat): (y: Vec)
    requires IsLine(l) && IsField(l, r) && i < |l|
    ensures |y| == 5
    decreases i, 0
  {
    if i == 0 then r[0] else Sub(r[i], MatVec(l[i].a, Lower(l, r, i - 1)))
  }

  /** The right-hand side after the forward sweep. */
  function Lower(l: seq<Block>, r: seq<Vec>, i: nat): (y: Vec)
    requires IsLine(l) && IsField(l, r) && i < |l|
    ensures |y| == 5
    decreases i, 1
  {
    SolveVec(Reduced(l, i), ReducedRhs(l, r, i))
  }

  /** The right-hand side after back substitution. */
  function Back(l: seq<Block>, r: seq<Vec>, i: nat): (y: Vec)
    requires IsLine(l) && IsField(l, r) && i < |l|
    ensures |y| == 5
    decreases |l| - i
  {
    if i == |l| - 1 then Lower(l, r, i)
    else Sub(Lower(l, r, i), MatVec(Upper(l, i), Back(l, r, i + 1)))
  }

  function Solution(l: seq<Block>, r: seq<Vec>): (x: seq<Vec>)
    requires IsLine(l) && IsField(l, r)
    ensures IsField(l, x)
  {
    seq(|l|, i requires 0 <= i < |l| => Back(l, r, i))
  }

  /** The sweep divides by no zero. */
  predicate LinePivots(l: seq<Block>)
    requires IsLine(l)
  {
    PivotsTo(l, |l|)
  }

  /** ... in its first `n` cells. */
  predicate PivotsTo(l: seq<Block>, n: nat)
    requires IsLine(l) && n <= |l|
  {
    forall i :: 0 <= i < n ==> NonzeroPivots(Reduced(l, i), 5, 5)
  }

  // ------------------------------------------------------------------ why that is the solution

  /** Row `i` after forward elimination: `x[i] + Upper x[i+1] == Lower`. */
  ghost predicate Eliminated(l: seq<Block>, r: seq<Vec>, x: seq<Vec>, i: nat)
    requires IsLine(l) && IsField(l, r) && IsField(l, x) && i < |l|
  {
    x[i] == if i == |l| - 1 then Lower(l, r, i)
            else Sub(Lower(l, r, i), MatVec(Upper(l, i), x[i + 1]))
  }

  /** `A x[i-1] == A Lower[i-1] - (A Upper[i-1]) x[i]`, so the diagonal block becomes `Reduced`. */
  lemma {:induction false} SubstitutePrevious(l: seq<Block>, r: seq<Vec>, x: seq<Vec>, i: nat)
    requires IsLine(l) && IsField(l, r) && IsField(l, x) && 0 < i < |l|
    requires Eliminated(l, r, x, i - 1)
    ensures Add(MatVec(l[i].a, x[i - 1]), MatVec(l[i].b, x[i]))
         == Add(MatVec(l[i].a, Lower(l, r, i - 1)), MatVec(Reduced(l, i), x[i]))
  {
    var a, c, y := l[i].a, Upper(l, i - 1), x[i];
    var p := MatMul(a, c, 5);
    MatVecSub(a, Lower(l, r, i - 1), MatVec(c, y));
    assert IsProduct(p, a, c, 5);
    ProductAssociates(p, a, c, y);
    MatSubVec(l[i].b, p, y);
  }

  /** `B v + C y == B (v + Solve(B, C) y)`. */
  lemma {:induction false} FactorDiagonal(b: Mat, c: Mat, v: Vec, y: Vec)
    requires IsMat(b, 5, 5) && IsMat(c, 5, 5) && |v| == |y| == 5
    requires NonzeroPivots(b, 5, 5)
    ensures Add(MatVec(b, v), MatVec(c, y)) == MatVec(b, Add(v, MatVec(Solve(b, c, 5), y)))
  {
    SolveProduct(b, c, 5);
    ProductAssociates(c, b, Solve(b, c, 5), y);
    MatVecAdd(b, v, MatVec(Solve(b, c, 5), y));
  }

  lemma {:induction false} AddSub(u: Vec, v: Vec, w: Vec)
    requires |u| == |v| == |w|
    ensures Add(u, v) == w <==> u == Sub(w, v)
    ensures Add(u, v) == w <==> v == Sub(w, u)
    ensures Add(Add(u, v), w) == Add(u, Add(v, w))
  {
    if Add(u, v) == w {
      assert forall i :: 0 <= i < |u| ==> Add(u, v)[i] == w[i];
    }
    if u == Sub(w, v) {
      assert forall i :: 0 <= i < |u| ==> u[i] == Sub(w, v)[i];
    }
    if v == Sub(w, u) {
      assert forall i :: 0 <= i < |u| ==> v[i] == Sub(w, u)[i];
    }
  }

  /** The part of row `i` at and after the diagonal, once the previous unknown is eliminated. */
  function Remaining(l: seq<Block>, x: seq<Vec>, i: nat): (y: Vec)
    requires IsLine(l) && IsField(l, x) && i < |l|
    ensures |y| == 5
  {
    var d := MatVec(Reduced(l, i), x[i]);
    if i == |l| - 1 then d else Add(d, MatVec(l[i].c, x[i + 1]))
  }

  lemma {:induction false} RowIsRemaining(l: seq<Block>, r: seq<Vec>, x: seq<Vec>, i: nat)
    requires IsLine(l) && IsField(l, r) && IsField(l, x) && i < |l|
    requires i == 0 || Eliminated(l, r, x, i - 1)
    ensures Row(l, x, i) == r[i] <==> Remaining(l, x, i) == ReducedRhs(l, r, i)
  {
    if i > 0 {
      SubstitutePrevious(l, r, x, i);
      var low := MatVec(l[i].a, Lower(l, r, i - 1));
      if i < |l| - 1 {
        AddSub(low, MatVec(Reduced(l, i), x[i]), MatVec(l[i].c, x[i + 1]));
      }
      assert Row(l, x, i) == Add(low, Remaining(l, x, i));
      AddSub(low, Remaining(l, x, i), r[i]);
    }
  }

  lemma {:induction false} RemainingIsEliminated(l: seq<Block>, r: seq<Vec>, x: seq<Vec>, i: nat)
    requires IsLine(l) && IsField(l, r) && IsField(l, x) && i < |l|
    requires NonzeroPivots(Reduced(l, i), 5, 5)
    ensures Remaining(l, x, i) == ReducedRhs(l, r, i) <==> Eliminated(l, r, x, i)
  {
    var b, s := Reduced(l, i), ReducedRhs(l, r, i);
    if i == |l| - 1 {
      SolveVecCorrect(b, s, x[i]);
    } else {
      var v := MatVec(Upper(l, i), x[i + 1]);
      FactorDiagonal(b, l[i].c, x[i], x[i + 1]);
      SolveVecCorrect(b, s, Add(x[i], v));
      AddSub(x[i], v, Lower(l, r, i));
    }
  }

  ghost predicate RowHolds(l: seq<Block>, r: seq<Vec>, x: seq<Vec>, i: nat)
    requires IsLine(l) && IsField(l, r) && IsField(l, x) && i < |l|
  {
    Row(l, x, i) == r[i]
  }

  lemma {:induction false} RowIsEliminated(l: seq<Block>, r: seq<Vec>, x: seq<Vec>, i: nat)
    requires IsLine(l) && IsField(l, r) && IsField(l, x) && i < |l| && NonzeroPivots(Reduced(l, i), 5, 5)
    requires i == 0 || Eliminated(l, r, x, i - 1)
    ensures RowHolds(l, r, x, i) <==> Eliminated(l, r, x, i)
  {
    RowIsRemaining(l, r, x, i);
    RemainingIsEliminated(l, r, x, i);
  }

  /** The first `n` rows hold, before and after the elimination. */
  ghost predicate RowsHold(l: seq<Block>, r: seq<Vec>, x: seq<Vec>, n: nat)
    requires IsLine(l) && IsField(l, r) && IsField(l, x) && n <= |l|
  {
    n == 0 || (RowsHold(l, r, x, n - 1) && RowHolds(l, r, x, n - 1))
  }

  ghost predicate RowsEliminated(l: seq<Block>, r: seq<Vec>, x: seq<Vec>, n: nat)
    requires IsLine(l) && IsField(l, r) && IsField(l, x) && n <= |l|
  {
    n == 0 || (RowsEliminated(l, r, x, n - 1) && Eliminated(l, r, x, n - 1))
  }

  lemma {:induction false} AllEliminated(l: seq<Block>, r: seq<Vec>, x: seq<Vec>, n: nat)
    requires IsLine(l) && IsField(l, r) && IsField(l, x) && n <= |l| && PivotsTo(l, n)
    ensures RowsHold(l, r, x, n) <==> RowsEliminated(l, r, x, n)
  {
    if n > 0 {
      AllEliminated(l, r, x, n - 1);
      if RowsEliminated(l, r, x, n - 1) {
        RowIsEliminated(l, r, x, n - 1);
      }
    }
  }

  lemma {:induction false} RowsHoldAt(l: seq<Block>, r: seq<Vec>, x: seq<Vec>, n: nat, i: nat)
    requires IsLine(l) && IsField(l, r) && IsField(l, x) && i < n <= |l| && RowsHold(l, r, x, n)
    ensures RowHolds(l, r, x, i)
  {
    if i < n - 1 {
      RowsHoldAt(l, r, x, n - 1, i);
    }
  }

  lemma {:induction false} SystemRowsHold(l: seq<Block>, r: seq<Vec>, x: seq<Vec>, n: nat)
    requires IsLine(l) && LineSystem(l, r, x) && n <= |l|
    ensures RowsHold(l, r, x, n)
  {
    if n > 0 {
      SystemRowsHold(l, r, x, n - 1);
    }
  }

  lemma {:induction false} RowsEliminatedAt(l: seq<Block>, r: seq<Vec>, x: seq<Vec>, n: nat, i: nat)
    requires IsLine(l) && IsField(l, r) && IsField(l, x) && i < n <= |l| && RowsEliminated(l, r, x, n)
    ensures Eliminated(l, r, x, i)
  {
    if i < n - 1 {
      RowsEliminatedAt(l, r, x, n - 1, i);
    }
  }

  /** From the last row upwards the eliminated rows say what back substitution computes. */
  lemma {:induction false} EliminatedIsBack(l: seq<Block>, r: seq<Vec>, x: seq<Vec>, i: nat)
    requires IsLine(l) && IsField(l, r) && IsField(l, x) && i < |l| && RowsEliminated(l, r, x, |l|)
    ensures x[i] == Back(l, r, i)
    decreases |l| - i
  {
    RowsEliminatedAt(l, r, x, |l|, i);
    if i < |l| - 1 {
      EliminatedIsBack(l, r, x, i + 1);
    }
  }

  lemma BackIsEliminated(l: seq<Block>, r: seq<Vec>, i: nat)
    requires IsLine(l) && IsField(l, r) && i < |l|
    ensures Eliminated(l, r, Solution(l, r), i)
  {
  }

  lemma {:induction false} SolutionIsEliminated(l: seq<Block>, r: seq<Vec>, n: nat)
    requires IsLine(l) && IsField(l, r) && n <= |l|
    ensures RowsEliminated(l, r, Solution(l, r), n)
  {
    if n > 0 {
      SolutionIsEliminated(l, r, n - 1);
      BackIsEliminated(l, r, n - 1);
    }
  }

  /** The sweeps compute the one and only solution of the line. */
  lemma {:induction false} LineSolved(l: seq<Block>, r: seq<Vec>, x: seq<Vec>)
    requires IsLine(l) && IsField(l, r) && LinePivots(l)
    ensures LineSystem(l, r, x) <==> x == Solution(l, r)
  {
    if LineSystem(l, r, x) {
      SystemRowsHold(l, r, x, |l|);
      AllEliminated(l, r, x, |l|);
      forall i | 0 <= i < |l| ensures x[i] == Solution(l, r)[i] {
        EliminatedIsBack(l, r, x, i);
      }
    }
    if x == Solution(l, r) {
      SolutionIsEliminated(l, r, |l|);
      AllEliminated(l, r, x, |l|);
      forall i | 0 <= i < |l| ensures Row(l, x, i) == r[i] {
        RowsHoldAt(l, r, x, |l|, i);
      }
    }
  }
}
