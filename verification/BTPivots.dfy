/**
 When the sweep along a line divides by no zero: exactly if every leading section of the
 block-tridiagonal matrix is injective.
 */
module BTPivots {
  import opened LinAlg
  import opened GaussJordan
  import opened BTKernels
  import opened BTLine

  function ZeroField(n: nat): (r: seq<Vec>)
    ensures |r| == n && forall i :: 0 <= i < n ==> r[i] == Zero(5)
  {
    seq(n, _ => Zero(5))
  }

  /** `x` uses only the unknowns before entry `k` of cell `i`. */
  ghost predicate InSection(l: seq<Block>, x: seq<Vec>, i: nat, k: nat)
    requires IsLine(l) && i < |l| && k <= 5
  {
    && IsField(l, x)
    && (forall j :: i < j < |l| ==> x[j] == Zero(5))
    && (forall m :: k <= m < 5 ==> x[i][m] == 0.0)
  }

  /** The rows before entry `k` of row `i` vanish on `x`. */
  ghost predicate Annihilated(l: seq<Block>, x: seq<Vec>, i: nat, k: nat)
    requires IsLine(l) && i < |l| && k <= 5 && IsField(l, x)
  {
    && RowsHold(l, ZeroField(|l|), x, i)
    && (forall m :: 0 <= m < k ==> Row(l, x, i)[m] == 0.0)
  }

  /** The leading section of `5 i + k` rows and columns annihilates only the zero vector. */
  ghost predicate SectionInjective(l: seq<Block>, i: nat, k: nat)
    requires IsLine(l) && i < |l| && k <= 5
  {
    forall x {:trigger InSection(l, x, i, k)} :: InSection(l, x, i, k) && Annihilated(l, x, i, k) ==> x == ZeroField(|l|)
  }

  // ------------------------------------------------------------------ homogeneous lines

  lemma {:induction false} MatVecZero(m: Mat, n: nat)
    requires IsMat(m, |m|, n)
    ensures MatVec(m, Zero(n)) == Zero(|m|)
  {
    forall i | 0 <= i < |m| ensures MatVec(m, Zero(n))[i] == 0.0 {
      DotZero(m[i], Zero(n), n);
    }
  }

  lemma {:induction false} LowerZero(l: seq<Block>, i: nat)
    requires IsLine(l) && i < |l| && PivotsTo(l, i + 1)
    ensures Lower(l, ZeroField(|l|), i) == Zero(5)
  {
    var z, b := ZeroField(|l|), Reduced(l, i);
    if i > 0 {
      LowerZero(l, i - 1);
      MatVecZero(l[i].a, 5);
    }
    assert ReducedRhs(l, z, i) == Zero(5);
    MatVecZero(b, 5);
    SolveVecCorrect(b, Zero(5), Zero(5));
  }

  lemma AddZeroVec(u: Vec, n: nat)
    requires |u| == n
    ensures Add(u, Zero(n)) == u && Add(Zero(n), u) == u
  {
  }

  /** After elimination, row `i` on a vector of the section is the reduced block on its last cell. */
  lemma {:induction false} RowIsReduced(l: seq<Block>, x: seq<Vec>, i: nat, k: nat)
    requires IsLine(l) && i < |l| && k <= 5 && InSection(l, x, i, k) && PivotsTo(l, i)
    requires RowsEliminated(l, ZeroField(|l|), x, i)
    ensures Row(l, x, i) == MatVec(Reduced(l, i), x[i])
  {
    var d := MatVec(Reduced(l, i), x[i]);
    if i > 0 {
      SubstitutePrevious(l, ZeroField(|l|), x, i);
      LowerZero(l, i - 1);
      MatVecZero(l[i].a, 5);
      AddZeroVec(d, 5);
    }
    if i < |l| - 1 {
      MatVecZero(l[i].c, 5);
      AddZeroVec(d, 5);
    }
  }

  // ------------------------------------------------------------------ pivots give injective sections

  lemma {:induction false} ZeroBelow(l: seq<Block>, x: seq<Vec>, i: nat, j: nat)
    requires IsLine(l) && j <= i < |l| && IsField(l, x) && PivotsTo(l, i) && RowsEliminated(l, ZeroField(|l|), x, i) && x[i] == Zero(5)
    ensures x[j] == Zero(5)
    decreases i - j
  {
    if j < i {
      ZeroBelow(l, x, i, j + 1);
      RowsEliminatedAt(l, ZeroField(|l|), x, i, j);
      LowerZero(l, j);
      MatVecZero(Upper(l, j), 5);
    }
  }

  lemma {:induction false} KernelOf(b: Mat, y: Vec, k: nat)
    requires IsMat(b, |b|, |y|) && k <= |b|
    ensures Kernel(b, y, k) <==> forall m :: 0 <= m < k ==> MatVec(b, y)[m] == 0.0
  {
    assert forall m :: 0 <= m < k ==> MatVec(b, y)[m] == Dot(b[m], y);
  }

  lemma {:induction false} LastCellZero(l: seq<Block>, x: seq<Vec>, i: nat, k: nat)
    requires IsLine(l) && i < |l| && k <= 5 && PivotsTo(l, i + 1) && InSection(l, x, i, k) && Annihilated(l, x, i, k)
    ensures RowsEliminated(l, ZeroField(|l|), x, i) && x[i] == Zero(5)
  {
    AllEliminated(l, ZeroField(|l|), x, i);
    RowIsReduced(l, x, i, k);
    var b, y := Reduced(l, i), x[i];
    KernelOf(b, y, k);
    assert NonzeroPivots(b, 5, 5);
    PivotsGiveInjective(b, k, y);
    assert forall m :: 0 <= m < 5 ==> y[m] == 0.0;
  }

  lemma {:induction false} PivotsGiveSection(l: seq<Block>, x: seq<Vec>, i: nat, k: nat)
    requires IsLine(l) && i < |l| && k <= 5 && LinePivots(l) && InSection(l, x, i, k) && Annihilated(l, x, i, k)
    ensures x == ZeroField(|l|)
  {
    LastCellZero(l, x, i, k);
    forall j | 0 <= j < |l| ensures x[j] == Zero(5) {
      if j <= i {
        ZeroBelow(l, x, i, j);
      }
    }
  }

  // ------------------------------------------------------------------ and are needed for them

  /** The vector whose eliminated rows vanish and whose cell `i` is `y`. */
  function LiftAt(l: seq<Block>, i: nat, y: Vec, j: nat): (v: Vec)
    requires IsLine(l) && i < |l| && |y| == 5 && j < |l|
    ensures |v| == 5
    decreases |l| - j
  {
    if j > i then Zero(5) else if j == i then y else Sub(Zero(5), MatVec(Upper(l, j), LiftAt(l, i, y, j + 1)))
  }

  function Lift(l: seq<Block>, i: nat, y: Vec): (x: seq<Vec>)
    requires IsLine(l) && i < |l| && |y| == 5
    ensures IsField(l, x)
  {
    seq(|l|, j requires 0 <= j < |l| => LiftAt(l, i, y, j))
  }

  lemma {:induction false} LiftEliminated(l: seq<Block>, i: nat, y: Vec, n: nat)
    requires IsLine(l) && n <= i < |l| && |y| == 5 && PivotsTo(l, i)
    ensures RowsEliminated(l, ZeroField(|l|), Lift(l, i, y), n)
  {
    if n > 0 {
      LiftEliminated(l, i, y, n - 1);
      LowerZero(l, n - 1);
      var x := Lift(l, i, y);
      assert x[n - 1] == LiftAt(l, i, y, n - 1) && x[n] == LiftAt(l, i, y, n);
    }
  }

  lemma {:induction false} LiftAnnihilated(l: seq<Block>, i: nat, k: nat, y: Vec)
    requires IsLine(l) && i < |l| && k <= 5 && PivotsTo(l, i) && |y| == 5
    requires (forall m :: k <= m < 5 ==> y[m] == 0.0) && Kernel(Reduced(l, i), y, k)
    ensures InSection(l, Lift(l, i, y), i, k) && Annihilated(l, Lift(l, i, y), i, k) && Lift(l, i, y)[i] == y
  {
    var x := Lift(l, i, y);
    assert x[i] == LiftAt(l, i, y, i) == y;
    LiftEliminated(l, i, y, i);
    AllEliminated(l, ZeroField(|l|), x, i);
    RowIsReduced(l, x, i, k);
    KernelOf(Reduced(l, i), y, k);
  }

  lemma {:induction false} SectionGivesLeading(l: seq<Block>, i: nat, k: nat, b: Mat)
    requires IsLine(l) && i < |l| && k <= 5 && PivotsTo(l, i) && SectionInjective(l, i, k) && b == Reduced(l, i)
    ensures LeadingInjective(b, k)
  {
    forall y: Vec | |y| == 5 && (forall m :: k <= m < 5 ==> y[m] == 0.0) && Kernel(b, y, k)
      ensures forall m :: 0 <= m < k && m < 5 ==> y[m] == 0.0
    {
      LiftAnnihilated(l, i, k, y);
      assert Lift(l, i, y)[i] == ZeroField(|l|)[i];
    }
  }

  lemma {:induction false} SectionGivesPivot(l: seq<Block>, i: nat)
    requires IsLine(l) && i < |l| && PivotsTo(l, i) && forall k :: 0 <= k <= 5 ==> SectionInjective(l, i, k)
    ensures NonzeroPivots(Reduced(l, i), 5, 5)
  {
    var b := Reduced(l, i);
    forall k | 0 <= k <= 5 ensures LeadingInjective(b, k) {
      SectionGivesLeading(l, i, k, b);
    }
    PivotsExactly(b, 5);
  }

  lemma {:induction false} SectionsGivePivots(l: seq<Block>, n: nat)
    requires IsLine(l) && n <= |l| && forall i, k :: 0 <= i < n && 0 <= k <= 5 ==> SectionInjective(l, i, k)
    ensures PivotsTo(l, n)
  {
    if n > 0 {
      SectionsGivePivots(l, n - 1);
      SectionGivesPivot(l, n - 1);
    }
  }

  /** The sweep along a line divides by no zero exactly if every leading section of its matrix is injective. */
  lemma {:induction false} LinePivotsExactly(l: seq<Block>)
    requires IsLine(l)
    ensures LinePivots(l) <==> forall i, k :: 0 <= i < |l| && 0 <= k <= 5 ==> SectionInjective(l, i, k)
  {
    if LinePivots(l) {
      forall i, k | 0 <= i < |l| && 0 <= k <= 5 ensures SectionInjective(l, i, k) {
        forall x | InSection(l, x, i, k) && Annihilated(l, x, i, k) ensures x == ZeroField(|l|) {
          PivotsGiveSection(l, x, i, k);
        }
      }
    } else if forall i, k :: 0 <= i < |l| && 0 <= k <= 5 ==> SectionInjective(l, i, k) {
      SectionsGivePivots(l, |l|);
    }
  }

  // ------------------------------------------------------------------ nothing comes of nothing

  lemma {:induction false} RowZero(l: seq<Block>, i: nat)
    requires IsLine(l) && i < |l|
    ensures Row(l, ZeroField(|l|), i) == Zero(5)
  {
    MatVecZero(l[i].a, 5);
    MatVecZero(l[i].b, 5);
    MatVecZero(l[i].c, 5);
    AddZeroVec(Zero(5), 5);
  }

  /** With a zero right-hand side only the zero vector solves a line. */
  lemma {:induction false} ZeroLine(l: seq<Block>, r: seq<Vec>, x: seq<Vec>)
    requires IsLine(l) && LinePivots(l) && LineSystem(l, r, x) && forall i :: 0 <= i < |r| ==> r[i] == Zero(5)
    ensures x == ZeroField(|l|)
  {
    forall i | 0 <= i < |l| ensures Row(l, ZeroField(|l|), i) == r[i] {
      RowZero(l, i);
    }
    LineSolved(l, r, x);
    LineSolved(l, r, ZeroField(|l|));
  }
}
