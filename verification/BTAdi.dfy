/**
 One solve of a time step of the BT program: `lhsx`, `lhsy` or `lhsz`, then the sweep along that axis.
 Blocks and right-hand sides are overwritten; the module shows what nevertheless stays put on the
 boundary, and which systems are solved.

 The flow physics (fluxes, Jacobians, the exact solution) is a parameter and may be anything.
 */
module BTAdi {
  import opened LinAlg
  import opened GaussJordan
  import opened BTKernels
  import opened BTLine
  import opened BTSweep

  type Grid = seq<seq<seq<Vec5>>>

  const ZERO5: Vec5 := Zero(5)
  const ZERO_BLOCK: Mat := [ZERO5, ZERO5, ZERO5, ZERO5, ZERO5]

  /** What `lhsinit` stores in every cell. */
  const BOUNDARY: Block5 := Block(ZERO_BLOCK, Identity(5), ZERO_BLOCK)

  /** What one step computes from the flow, per axis: flux differences and blocks for the interior. */
  datatype Physics = Physics(flux: Flux, jac: (Axis, int, int, int) -> Block5)

  /** The flux difference of an axis at the grid point `(i, j, k)`. */
  type Flux = (Axis, int, int, int) -> Vec5

  function StepBlock(f: Physics, d: Axis, n: nat, s: int, p: int, q: int): Block5 {
    if 0 < s < n - 1 then f.jac(d, s, p, q) else BOUNDARY
  }

  /** The line that a sweep along `d` works on. */
  function StepLine(f: Physics, d: Axis, n: nat, p: int, q: int): (l: seq<Block5>)
    ensures |l| == n
  {
    seq(n, s => StepBlock(f, d, n, s, p, q))
  }

  /** One line of a grid snapshot. */
  ghost function LineOf(a: array3<Vec5>, g: Grid, d: Axis, p: int, q: int): (l: seq<Vec5>)
    requires Fits(a, X, g) && 0 <= p < Across(a, d) && 0 <= q < Deep(a, d)
    ensures |l| == Along(a, d)
  {
    match d
    case X => g[p][q]
    case Y => seq(a.Length1, s requires 0 <= s < a.Length1 => g[s][q][p])
    case Z => seq(a.Length2, s requires 0 <= s < a.Length2 => g[q][s][p])
  }

  lemma {:induction false} LineOfSnapshot(a: array3<Vec5>, d: Axis, p: int, q: int)
    requires 0 <= p < Across(a, d) && 0 <= q < Deep(a, d)
    ensures LineOf(a, Lines(a, X), d, p, q) == Lines(a, d)[p][q]
  {
    var l, m := LineOf(a, Lines(a, X), d, p, q), Lines(a, d)[p][q];
    forall s | 0 <= s < |l| ensures l[s] == m[s] {
      match d
      case X =>
      case Y => assert In(a, X, p, s, q) && In(a, Y, s, p, q);
      case Z => assert In(a, X, p, q, s) && In(a, Z, s, p, q);
    }
  }

  // ------------------------------------------------------------------ the identity block

  lemma {:induction false} IdentityVec(x: Vec)
    ensures MatVec(Identity(|x|), x) == x
  {
    forall i | 0 <= i < |x| ensures MatVec(Identity(|x|), x)[i] == x[i] {
      DotPick(Identity(|x|)[i], x, i, |x|);
    }
  }

  lemma {:induction false} ZeroVec(x: Vec5)
    ensures MatVec(ZERO_BLOCK, x) == ZERO5
  {
    forall i | 0 <= i < 5 ensures MatVec(ZERO_BLOCK, x)[i] == 0.0 {
      DotZero(ZERO_BLOCK[i], x, 5);
    }
  }

  lemma {:induction false} IdentityPivots()
    ensures NonzeroPivots(Identity(5), 5, 5)
    ensures Leftover(Identity(5)) == Identity(5)
  {
    var e := Identity(5);
    forall p | 0 <= p < 5 ensures Reduce(e, p, 5) == e {
      ReduceIdentity(5, p);
    }
    forall i | 0 <= i < 5 ensures Leftover(e)[i] == e[i] {
    }
  }

  lemma {:induction false} SolveIdentity(c: Mat)
    requires IsMat(c, 5, 5)
    ensures Solve(Identity(5), c, 5) == c
  {
    IdentityPivots();
    forall j | 0 <= j < 5 ensures Col(Solve(Identity(5), c, 5), j) == Col(c, j) {
      IdentityVec(Col(c, j));
      SolveCorrect(Identity(5), c, 5, Col(c, j), j);
    }
    SameColumns(Solve(Identity(5), c, 5), c, 5, 5);
  }

  lemma {:induction false} NothingSubtracted(b: Mat, c: Mat)
    requires IsMat(b, 5, 5) && IsMat(c, 5, 5)
    ensures MatSub(b, MatMul(ZERO_BLOCK, c, 5), 5) == b
  {
    var m := MatSub(b, MatMul(ZERO_BLOCK, c, 5), 5);
    forall i | 0 <= i < 5 ensures m[i] == b[i] {
      forall j | 0 <= j < 5 ensures m[i][j] == b[i][j] {
        DotZero(ZERO_BLOCK[i], Col(c, j), 5);
      }
    }
  }

  /** A boundary cell comes out of the forward sweep exactly as it went in. */
  lemma {:induction false} BoundarySurvives(l: seq<Block5>, s: nat)
    requires IsLine(l) && (s == 0 || s == |l| - 1) && l[s] == BOUNDARY
    ensures Swept(l, s) == BOUNDARY
  {
    IdentityPivots();
    SolveIdentity(ZERO_BLOCK);
    if s > 0 {
      NothingSubtracted(l[s].b, Upper(l, s - 1));
    }
    assert Reduced(l, s) == Identity(5);
  }

  lemma AddZero(x: Vec5)
    ensures Add(x, ZERO5) == x && Add(ZERO5, x) == x
  {
  }

  /** A sweep does not change the right-hand side of a boundary cell. */
  lemma {:induction false} BoundaryRhsSurvives(l: seq<Block5>, r: seq<Vec5>, x: seq<Vec5>, s: nat)
    requires IsLine(l) && LineSystem(l, r, x) && (s == 0 || s == |l| - 1) && l[s] == BOUNDARY
    ensures x[s] == r[s]
  {
    IdentityVec(x[s]);
    assert Row(l, x, s) == r[s];
    if s == 0 {
      ZeroVec(x[1]);
    } else {
      ZeroVec(x[s - 1]);
    }
    AddZero(x[s]);
  }

  // ------------------------------------------------------------------ the boundary

  predicate End(s: int, n: int) {
    s == 0 || s == n - 1
  }

  /** On the boundary of the grid. */
  predicate OnFace<T>(a: array3<T>, d: Axis, s: int, p: int, q: int) {
    End(s, Along(a, d)) || End(p, Across(a, d)) || End(q, Deep(a, d))
  }

  /** On exactly one face, seen from axis `d`: the ends of the lines that some sweep works on. */
  predicate OneFace<T>(a: array3<T>, d: Axis, s: int, p: int, q: int) {
    || (End(s, Along(a, d)) && Inner(a, d, p, q))
    || (!End(s, Along(a, d)) && End(p, Across(a, d)) != End(q, Deep(a, d)))
  }

  /** The blocks at the ends of all lines are as `lhsinit` left them. */
  ghost predicate BoundaryBlocks(lhs: array3<Block5>, d: Axis)
    reads lhs
  {
    forall s, p, q :: In(lhs, d, s, p, q) && OneFace(lhs, d, s, p, q) ==> At(lhs, d, s, p, q) == BOUNDARY
  }

  ghost predicate BoundaryZero(a: array3<Vec5>, d: Axis)
    reads a
  {
    forall s, p, q :: In(a, d, s, p, q) && OnFace(a, d, s, p, q) ==> At(a, d, s, p, q) == ZERO5
  }

  /** Which axis one looks along does not matter. */
  lemma {:induction false} BlocksAnyAxis(lhs: array3<Block5>, d: Axis, e: Axis)
    requires BoundaryBlocks(lhs, d)
    ensures BoundaryBlocks(lhs, e)
  {
    forall s, p, q | In(lhs, e, s, p, q) && OneFace(lhs, e, s, p, q)
      ensures At(lhs, e, s, p, q) == BOUNDARY
    {
      var (i, j, k) := match e case X => (s, p, q) case Y => (p, s, q) case Z => (p, q, s);
      var (s', p', q') := match d case X => (i, j, k) case Y => (j, i, k) case Z => (k, i, j);
      assert At(lhs, e, s, p, q) == lhs[i, j, k] == At(lhs, d, s', p', q');
      assert In(lhs, d, s', p', q') && OneFace(lhs, d, s', p', q');
    }
  }

  lemma {:induction false} ZeroAnyAxis(a: array3<Vec5>, d: Axis, e: Axis)
    requires BoundaryZero(a, d)
    ensures BoundaryZero(a, e)
  {
    forall s, p, q | In(a, e, s, p, q) && OnFace(a, e, s, p, q)
      ensures At(a, e, s, p, q) == ZERO5
    {
      var (i, j, k) := match e case X => (s, p, q) case Y => (p, s, q) case Z => (p, q, s);
      var (s', p', q') := match d case X => (i, j, k) case Y => (j, i, k) case Z => (k, i, j);
      assert At(a, e, s, p, q) == a[i, j, k] == At(a, d, s', p', q');
      assert In(a, d, s', p', q') && OnFace(a, d, s', p', q');
    }
  }

  // ------------------------------------------------------------------ one sweep

  /** The step's blocks give no zero pivot on any line. */
  predicate StepPivots(f: Physics, a: array3<Block5>)
    requires a.Length0 >= 2 && a.Length1 >= 2 && a.Length2 >= 2
  {
    forall d: Axis, p, q :: 0 < p < Across(a, d) - 1 && 0 < q < Deep(a, d) - 1 ==> LinePivots(StepLine(f, d, Along(a, d), p, q))
  }

  /** The interior cells that `lhsx` and its siblings have filled so far. */
  ghost predicate FilledTo(lhs: array3<Block5>, d: Axis, f: Physics, p0: int, q0: int, s0: int)
    reads lhs
  {
    forall s, p, q :: In(lhs, d, s, p, q) && Inner(lhs, d, p, q) && !End(s, Along(lhs, d))
        && (p < p0 || (p == p0 && (q < q0 || (q == q0 && s < s0))))
      ==> At(lhs, d, s, p, q) == f.jac(d, s, p, q)
  }

  /** `lhsx`, `lhsy`, `lhsz`: overwrite the interior blocks, leave the ends of the lines alone. */
  method LhsSetup(lhs: array3<Block5>, d: Axis, f: Physics)
    requires lhs.Length0 >= 2 && lhs.Length1 >= 2 && lhs.Length2 >= 2
    requires BoundaryBlocks(lhs, d)
    modifies lhs
    ensures BoundaryBlocks(lhs, d)
    ensures forall p, q :: Inner(lhs, d, p, q) ==> Lines(lhs, d)[p][q] == StepLine(f, d, Along(lhs, d), p, q)
  {
    var n := Along(lhs, d);
    for p := 1 to Across(lhs, d) - 1
      invariant BoundaryBlocks(lhs, d) && FilledTo(lhs, d, f, p, 0, 0)
    {
      for q := 1 to Deep(lhs, d) - 1
        invariant BoundaryBlocks(lhs, d) && FilledTo(lhs, d, f, p, q, 0)
      {
        for s := 1 to n - 1
          invariant BoundaryBlocks(lhs, d) && FilledTo(lhs, d, f, p, q, s)
        {
          Put(lhs, d, s, p, q, f.jac(d, s, p, q));
        }
      }
    }
    forall p, q | Inner(lhs, d, p, q)
      ensures Lines(lhs, d)[p][q] == StepLine(f, d, n, p, q)
    {
      forall s | 0 <= s < n ensures Lines(lhs, d)[p][q][s] == StepLine(f, d, n, p, q)[s] {
        assert In(lhs, d, s, p, q);
      }
    }
  }

  /** Along every inner line of axis `d`, the snapshot `x` solves the step's system for the snapshot `r`. */
  ghost predicate Solves(f: Physics, a: array3<Vec5>, d: Axis, r: Grid, x: Grid)
    requires a.Length0 >= 2 && a.Length1 >= 2 && a.Length2 >= 2
    requires Fits(a, X, r) && Fits(a, X, x)
  {
    forall p, q :: Inner(a, d, p, q) ==>
      LineSystem(StepLine(f, d, Along(a, d), p, q), LineOf(a, r, d, p, q), LineOf(a, x, d, p, q))
  }

  lemma {:induction false} SweptBoundary(lhs: array3<Block5>, d: Axis, l: seq<seq<seq<Block5>>>)
    requires lhs.Length0 >= 2 && lhs.Length1 >= 2 && lhs.Length2 >= 2 && Fits(lhs, d, l)
    requires forall s, p, q :: In(lhs, d, s, p, q) && OneFace(lhs, d, s, p, q) ==> l[p][q][s] == BOUNDARY
    requires Lines(lhs, d) == ForwardLhs(lhs, d, l)
    ensures BoundaryBlocks(lhs, d)
  {
    forall s, p, q | In(lhs, d, s, p, q) && OneFace(lhs, d, s, p, q)
      ensures At(lhs, d, s, p, q) == BOUNDARY
    {
      assert At(lhs, d, s, p, q) == Lines(lhs, d)[p][q][s];
      if Inner(lhs, d, p, q) {
        assert l[p][q][s] == BOUNDARY;
        BoundarySurvives(l[p][q], s);
        assert ForwardLhs(lhs, d, l)[p][q][s] == Swept(l[p][q], s);
      }
    }
  }

  /** A line that can be swept and has unit rows at both ends. */
  ghost predicate Ready(l: seq<Block5>) {
    |l| >= 2 && LinePivots(l) && l[0] == BOUNDARY && l[|l| - 1] == BOUNDARY
  }

  lemma {:induction false} SolvedCell(a: array3<Vec5>, d: Axis, l: seq<seq<seq<Block5>>>, r: Grid, s: int, p: int, q: int)
    requires |l| == |r| && (forall p :: 0 <= p < |l| ==> |l[p]| == |r[p]|) && Fits(a, d, r)
    requires forall p, q :: 0 <= p < |l| && 0 <= q < |l[p]| ==> |l[p][q]| == |r[p][q]| >= 2
    requires In(a, d, s, p, q) && OnFace(a, d, s, p, q) && r[p][q][s] == ZERO5
    requires Inner(a, d, p, q) ==> Ready(l[p][q])
    ensures Solved(a, d, l, r)[p][q][s] == ZERO5
  {
    if Inner(a, d, p, q) {
      SolvedEnd(l[p][q], r[p][q], s);
    }
  }

  lemma {:induction false} SolvedEnd(l: seq<Block5>, r: seq<Vec5>, s: int)
    requires Ready(l) && |l| == |r|
    requires (s == 0 || s == |l| - 1) && r[s] == ZERO5
    ensures SolvedLine(l, r)[s] == ZERO5
  {
    var x := SolvedLine(l, r);
    assert x == Solution(l, r);
    LineSolved(l, r, x);
    BoundaryRhsSurvives(l, r, x, s);
  }

  lemma {:induction false} SolvedBoundary(a: array3<Vec5>, d: Axis, l: seq<seq<seq<Block5>>>, r: Grid)
    requires a.Length0 >= 2 && a.Length1 >= 2 && a.Length2 >= 2
    requires |l| == |r| && (forall p :: 0 <= p < |l| ==> |l[p]| == |r[p]|) && Fits(a, d, r)
    requires forall p, q :: 0 <= p < |l| && 0 <= q < |l[p]| ==> |l[p][q]| == |r[p][q]| >= 2
    requires forall p, q {:trigger Ready(l[p][q])} :: Inner(a, d, p, q) ==> Ready(l[p][q])
    requires forall s, p, q :: In(a, d, s, p, q) && OnFace(a, d, s, p, q) ==> r[p][q][s] == ZERO5
    requires Lines(a, d) == Solved(a, d, l, r)
    ensures BoundaryZero(a, d)
  {
    forall s, p, q | In(a, d, s, p, q) && OnFace(a, d, s, p, q)
      ensures At(a, d, s, p, q) == ZERO5
    {
      assert At(a, d, s, p, q) == Solved(a, d, l, r)[p][q][s];
      SolvedCell(a, d, l, r, s, p, q);
    }
  }

  /** The lines of axis `d`, before and after, solve the step's systems. */
  ghost predicate SolvesLines(f: Physics, a: array3<Vec5>, d: Axis, r: Grid, x: Grid)
    requires a.Length0 >= 2 && a.Length1 >= 2 && a.Length2 >= 2
    requires Fits(a, d, r) && Fits(a, d, x)
  {
    forall p, q :: Inner(a, d, p, q) ==> LineSystem(StepLine(f, d, Along(a, d), p, q), r[p][q], x[p][q])
  }

  lemma {:induction false} SweptSolves(f: Physics, a: array3<Vec5>, d: Axis, l: seq<seq<seq<Block5>>>, r: Grid, x: Grid)
    requires a.Length0 >= 2 && a.Length1 >= 2 && a.Length2 >= 2
    requires |l| == |r| && (forall p :: 0 <= p < |l| ==> |l[p]| == |r[p]|) && Fits(a, d, r)
    requires forall p, q :: 0 <= p < |l| && 0 <= q < |l[p]| ==> |l[p][q]| == |r[p][q]| >= 2
    requires forall p, q :: Inner(a, d, p, q) ==>
               LinePivots(l[p][q]) && l[p][q] == StepLine(f, d, Along(a, d), p, q)
    requires x == Solved(a, d, l, r)
    ensures SolvesLines(f, a, d, r, x)
  {
    forall p, q | Inner(a, d, p, q)
      ensures LineSystem(StepLine(f, d, Along(a, d), p, q), r[p][q], x[p][q])
    {
      SweepSolves(a, d, l, r, p, q, x[p][q]);
    }
  }

  lemma LinesReady(lhs: array3<Block5>, d: Axis, f: Physics, l: seq<seq<seq<Block5>>>)
    requires lhs.Length0 >= 2 && lhs.Length1 >= 2 && lhs.Length2 >= 2 && StepPivots(f, lhs)
    requires Fits(lhs, d, l) && forall p, q :: Inner(lhs, d, p, q) ==> l[p][q] == StepLine(f, d, Along(lhs, d), p, q)
    ensures forall p, q {:trigger Ready(l[p][q])} :: Inner(lhs, d, p, q) ==> Ready(l[p][q])
    ensures forall p, q :: Inner(lhs, d, p, q) ==> LinePivots(l[p][q])
  {
  }

  method SweepAxis(lhs: array3<Block5>, rhs: array3<Vec5>, d: Axis, f: Physics)
    requires SameGrid(lhs, rhs) && StepPivots(f, lhs)
    requires BoundaryBlocks(lhs, d) && BoundaryZero(rhs, d)
    modifies lhs, rhs
    ensures BoundaryBlocks(lhs, d) && BoundaryZero(rhs, d)
    ensures SolvesLines(f, rhs, d, old(Lines(rhs, d)), Lines(rhs, d))
  {
    LhsSetup(lhs, d, f);
    ghost var l, r := Lines(lhs, d), Lines(rhs, d);
    LinesReady(lhs, d, f, l);
    assert InnerPivots(lhs, d);
    Sweep(lhs, rhs, d);
    SweptBoundary(lhs, d, l);
    SolvedBoundary(rhs, d, l, r);
    SweptSolves(f, rhs, d, l, r, Lines(rhs, d));
  }

  /** `x_solve`, `y_solve`, `z_solve`. */
  method SolveAxis(lhs: array3<Block5>, rhs: array3<Vec5>, d: Axis, f: Physics)
    requires SameGrid(lhs, rhs) && StepPivots(f, lhs)
    requires BoundaryBlocks(lhs, X) && BoundaryZero(rhs, X)
    modifies lhs, rhs
    ensures BoundaryBlocks(lhs, X) && BoundaryZero(rhs, X)
    ensures Solves(f, rhs, d, old(Lines(rhs, X)), Lines(rhs, X))
  {
    BlocksAnyAxis(lhs, X, d);
    ZeroAnyAxis(rhs, X, d);
    ghost var r, g := Lines(rhs, d), Lines(rhs, X);
    forall p, q | Inner(rhs, d, p, q) ensures LineOf(rhs, g, d, p, q) == r[p][q] {
      LineOfSnapshot(rhs, d, p, q);
    }
    SweepAxis(lhs, rhs, d, f);
    BlocksAnyAxis(lhs, d, X);
    ZeroAnyAxis(rhs, d, X);
    ghost var x, h := Lines(rhs, d), Lines(rhs, X);
    forall p, q | Inner(rhs, d, p, q) ensures LineOf(rhs, h, d, p, q) == x[p][q] {
      LineOfSnapshot(rhs, d, p, q);
    }
  }
}
