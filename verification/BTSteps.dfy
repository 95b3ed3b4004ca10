/**
 Three solves in turn on grids as values: what a zero right-hand side gives, and that there is no
 other solution.
 */
module BTSteps {
  import opened BTLine
  import opened BTSweep
  import opened BTAdi
  import opened BTLoops
  import BTPivots

  ghost predicate ZeroGrid(a: array3<Vec5>, r: Grid)
    requires Fits(a, X, r)
  {
    forall i, j, k :: Within(a, i, j, k) ==> r[j][k][i] == ZERO5
  }

  ghost predicate ZeroEdge(a: array3<Vec5>, r: Grid)
    requires Fits(a, X, r)
  {
    forall i, j, k :: Within(a, i, j, k) && !Interior(a, i, j, k) ==> r[j][k][i] == ZERO5
  }

  lemma {:induction false} EdgeOf(a: array3<Vec5>)
    requires BoundaryZero(a, X)
    ensures ZeroEdge(a, Lines(a, X))
  {
    forall i, j, k | Within(a, i, j, k) && !Interior(a, i, j, k) ensures Lines(a, X)[j][k][i] == ZERO5 {
      assert In(a, X, i, j, k) && OnFace(a, X, i, j, k);
    }
  }

  lemma {:induction false} ZeroInside(l: seq<Block5>, y: seq<Vec5>, z: seq<Vec5>, s: int)
    requires |l| >= 2 && LinePivots(l) && LineSystem(l, y, z) && 0 <= s < |l| && forall i :: 0 <= i < |y| ==> y[i] == ZERO5
    ensures |z| == |l| && z[s] == ZERO5
  {
    BTPivots.ZeroLine(l, y, z);
  }

  lemma {:induction false} SolvedLineOf(f: Physics, a: array3<Vec5>, lhs: array3<Block5>, d: Axis, r: Grid, x: Grid, p: int, q: int)
    requires SameGrid(lhs, a) && StepPivots(f, lhs) && Fits(a, X, r) && Fits(a, X, x) && Solves(f, a, d, r, x) && Inner(a, d, p, q)
    ensures var l := StepLine(f, d, Along(a, d), p, q);
            |l| >= 2 && LinePivots(l) && LineSystem(l, LineOf(a, r, d, p, q), LineOf(a, x, d, p, q))
  {
    assert Across(lhs, d) == Across(a, d) && Deep(lhs, d) == Deep(a, d) && Along(lhs, d) == Along(a, d);
  }

  /** Zero right-hand sides give zero on every inner line. */
  lemma {:induction false} ZeroPoint(f: Physics, a: array3<Vec5>, lhs: array3<Block5>, d: Axis, r: Grid, x: Grid, s: int, p: int, q: int)
    requires SameGrid(lhs, a) && StepPivots(f, lhs) && Fits(a, X, r) && Fits(a, X, x) && Solves(f, a, d, r, x) && ZeroGrid(a, r)
    requires Inner(a, d, p, q) && In(a, d, s, p, q)
    ensures LineOf(a, x, d, p, q)[s] == ZERO5
  {
    var l, y, z := StepLine(f, d, Along(a, d), p, q), LineOf(a, r, d, p, q), LineOf(a, x, d, p, q);
    SolvedLineOf(f, a, lhs, d, r, x, p, q);
    forall s' | 0 <= s' < |y| ensures y[s'] == ZERO5 {
      ZeroEntry(a, r, d, s', p, q);
    }
    ZeroInside(l, y, z, s);
  }

  /** Zero right-hand sides and a zero boundary give the zero solution. */
  lemma {:induction false} ZeroSolution(f: Physics, a: array3<Vec5>, lhs: array3<Block5>, d: Axis, r: Grid, x: Grid)
    requires SameGrid(lhs, a) && StepPivots(f, lhs) && Fits(a, X, r) && Fits(a, X, x)
    requires Solves(f, a, d, r, x) && ZeroGrid(a, r) && ZeroEdge(a, x)
    ensures ZeroGrid(a, x)
  {
    forall i, j, k | Within(a, i, j, k) ensures x[j][k][i] == ZERO5 {
      if Interior(a, i, j, k) {
        match d
        case X => ZeroPoint(f, a, lhs, X, r, x, i, j, k);
        case Y => ZeroPoint(f, a, lhs, Y, r, x, j, i, k);
        case Z => ZeroPoint(f, a, lhs, Z, r, x, k, i, j);
      }
    }
  }

  /** Three solves one after the other. */
  lemma {:induction false} ZeroThroughout(f: Physics, a: array3<Vec5>, lhs: array3<Block5>, r0: Grid, r1: Grid, r2: Grid, r3: Grid)
    requires SameGrid(lhs, a) && StepPivots(f, lhs) && Fits(a, X, r0) && Fits(a, X, r1) && Fits(a, X, r2) && Fits(a, X, r3)
    requires ZeroGrid(a, r0) && ZeroEdge(a, r1) && ZeroEdge(a, r2) && ZeroEdge(a, r3)
    requires Solves(f, a, X, r0, r1) && Solves(f, a, Y, r1, r2) && Solves(f, a, Z, r2, r3)
    ensures ZeroGrid(a, r3)
  {
    ZeroSolution(f, a, lhs, X, r0, r1);
    ZeroSolution(f, a, lhs, Y, r1, r2);
    ZeroSolution(f, a, lhs, Z, r2, r3);
  }

  lemma {:induction false} ZeroEntry(a: array3<Vec5>, r: Grid, d: Axis, s: int, p: int, q: int)
    requires Fits(a, X, r) && ZeroGrid(a, r) && In(a, d, s, p, q)
    ensures LineOf(a, r, d, p, q)[s] == ZERO5
  {
    match d
    case X => assert Within(a, s, p, q);
    case Y => assert Within(a, p, s, q);
    case Z => assert Within(a, p, q, s);
  }

  // ------------------------------------------------------------------ uniqueness

  lemma {:induction false} SameLine(l: seq<Block5>, y: seq<Vec5>, z: seq<Vec5>, w: seq<Vec5>)
    requires |l| >= 2 && LinePivots(l) && LineSystem(l, y, z) && LineSystem(l, y, w)
    ensures z == w
  {
    LineSolved(l, y, z);
    LineSolved(l, y, w);
  }

  lemma {:induction false} SamePoint(f: Physics, a: array3<Vec5>, lhs: array3<Block5>, d: Axis, r: Grid, x: Grid, x': Grid,
                                     s: int, p: int, q: int)
    requires SameGrid(lhs, a) && StepPivots(f, lhs) && Fits(a, X, r) && Fits(a, X, x) && Fits(a, X, x')
    requires Solves(f, a, d, r, x) && Solves(f, a, d, r, x') && Inner(a, d, p, q) && In(a, d, s, p, q)
    ensures LineOf(a, x, d, p, q)[s] == LineOf(a, x', d, p, q)[s]
  {
    SolvedLineOf(f, a, lhs, d, r, x, p, q);
    SolvedLineOf(f, a, lhs, d, r, x', p, q);
    SameLine(StepLine(f, d, Along(a, d), p, q), LineOf(a, r, d, p, q), LineOf(a, x, d, p, q), LineOf(a, x', d, p, q));
  }

  /** Two grids with the same values are the same. */
  lemma {:induction false} SameGrids(a: array3<Vec5>, x: Grid, x': Grid)
    requires Fits(a, X, x) && Fits(a, X, x') && forall i, j, k :: Within(a, i, j, k) ==> x[j][k][i] == x'[j][k][i]
    ensures x == x'
  {
    forall j | 0 <= j < |x| ensures x[j] == x'[j] {
      forall k | 0 <= k < |x[j]| ensures x[j][k] == x'[j][k] {
        forall i | 0 <= i < |x[j][k]| ensures x[j][k][i] == x'[j][k][i] {
          assert Within(a, i, j, k);
        }
      }
    }
  }

  /** With nonzero pivots and a zero boundary the solution is unique. */
  lemma {:induction false} SolvesUnique(f: Physics, a: array3<Vec5>, lhs: array3<Block5>, d: Axis, r: Grid, x: Grid, x': Grid)
    requires SameGrid(lhs, a) && StepPivots(f, lhs) && Fits(a, X, r) && Fits(a, X, x) && Fits(a, X, x')
    requires Solves(f, a, d, r, x) && Solves(f, a, d, r, x') && ZeroEdge(a, x) && ZeroEdge(a, x')
    ensures x == x'
  {
    forall i, j, k | Within(a, i, j, k) ensures x[j][k][i] == x'[j][k][i] {
      if Interior(a, i, j, k) {
        match d
        case X => SamePoint(f, a, lhs, X, r, x, x', i, j, k);
        case Y => SamePoint(f, a, lhs, Y, r, x, x', j, i, k);
        case Z => SamePoint(f, a, lhs, Z, r, x, x', k, i, j);
      }
    }
    SameGrids(a, x, x');
  }

  lemma {:induction false} ThroughoutUnique(f: Physics, a: array3<Vec5>, lhs: array3<Block5>, r0: Grid,
                                            r1: Grid, r2: Grid, r3: Grid, s1: Grid, s2: Grid, s3: Grid)
    requires SameGrid(lhs, a) && StepPivots(f, lhs) && Fits(a, X, r0) && Fits(a, X, r1) && Fits(a, X, r2) && Fits(a, X, r3)
    requires Fits(a, X, s1) && Fits(a, X, s2) && Fits(a, X, s3)
    requires ZeroEdge(a, r1) && ZeroEdge(a, r2) && ZeroEdge(a, r3) && ZeroEdge(a, s1) && ZeroEdge(a, s2) && ZeroEdge(a, s3)
    requires Solves(f, a, X, r0, r1) && Solves(f, a, Y, r1, r2) && Solves(f, a, Z, r2, r3)
    requires Solves(f, a, X, r0, s1) && Solves(f, a, Y, s1, s2) && Solves(f, a, Z, s2, s3)
    ensures r3 == s3
  {
    SolvesUnique(f, a, lhs, X, r0, r1, s1);
    SolvesUnique(f, a, lhs, Y, r1, r2, s2);
    SolvesUnique(f, a, lhs, Z, r2, r3, s3);
  }
}
