/**
 The sweeps of the BT solver over a three-dimensional grid of blocks, updated in place.

 `x_solve_cell`, `y_solve_cell` and `z_solve_cell` are the same loop nest over a different axis, so
 the model has one nest with the axis as a parameter: `s` runs along the line, `p` and `q` across.
 */
module BTSweep {
  import opened LinAlg
  import opened GaussJordan
  import opened BTKernels
  import opened BTLine

  type Vec5 = v: Vec | |v| == 5 witness [0.0, 0.0, 0.0, 0.0, 0.0]
  type Block5 = k: Block | IsBlock(k) witness Block(Identity(5), Identity(5), Identity(5))

  datatype Axis = X | Y | Z

  function Along<T>(a: array3<T>, d: Axis): (n: nat) {
    match d case X => a.Length0 case Y => a.Length1 case Z => a.Length2
  }

  function Across<T>(a: array3<T>, d: Axis): (n: nat) {
    match d case X => a.Length1 case Y => a.Length0 case Z => a.Length0
  }

  function Deep<T>(a: array3<T>, d: Axis): (n: nat) {
    match d case X => a.Length2 case Y => a.Length2 case Z => a.Length1
  }

  predicate In<T>(a: array3<T>, d: Axis, s: int, p: int, q: int) {
    0 <= s < Along(a, d) && 0 <= p < Across(a, d) && 0 <= q < Deep(a, d)
  }

  function At<T>(a: array3<T>, d: Axis, s: int, p: int, q: int): T
    requires In(a, d, s, p, q)
    reads a
  {
    match d case X => a[s, p, q] case Y => a[p, s, q] case Z => a[p, q, s]
  }

  method Put<T>(a: array3<T>, d: Axis, s: int, p: int, q: int, v: T)
    requires In(a, d, s, p, q)
    modifies a
    ensures forall s', p', q' :: In(a, d, s', p', q') ==>
              At(a, d, s', p', q') == if s' == s && p' == p && q' == q then v else old(At(a, d, s', p', q'))
  {
    match d
    case X => a[s, p, q] := v;
    case Y => a[p, s, q] := v;
    case Z => a[p, q, s] := v;
  }

  /** All lines along an axis, as values: `Lines(a, d)[p][q][s]`. */
  function Lines<T>(a: array3<T>, d: Axis): (l: seq<seq<seq<T>>>)
    reads a
    ensures |l| == Across(a, d)
    ensures forall p :: 0 <= p < |l| ==> |l[p]| == Deep(a, d)
    ensures forall p, q :: 0 <= p < |l| && 0 <= q < Deep(a, d) ==> |l[p][q]| == Along(a, d)
    ensures forall s, p, q :: In(a, d, s, p, q) ==> l[p][q][s] == At(a, d, s, p, q)
  {
    seq(Across(a, d), p requires 0 <= p < Across(a, d) reads a =>
      seq(Deep(a, d), q requires 0 <= q < Deep(a, d) reads a =>
        seq(Along(a, d), s requires 0 <= s < Along(a, d) reads a => At(a, d, s, p, q))))
  }

  /** The shared shape of the arrays, at least two points along every axis. */
  predicate SameGrid(lhs: array3<Block5>, rhs: array3<Vec5>) {
    && lhs.Length0 == rhs.Length0 && lhs.Length1 == rhs.Length1 && lhs.Length2 == rhs.Length2
    && lhs.Length0 >= 2 && lhs.Length1 >= 2 && lhs.Length2 >= 2
  }

  /** Lines strictly inside the grid; only these are swept. */
  predicate Inner<T>(a: array3<T>, d: Axis, p: int, q: int) {
    0 < p < Across(a, d) - 1 && 0 < q < Deep(a, d) - 1
  }

  ghost predicate InnerPivots(lhs: array3<Block5>, d: Axis)
    reads lhs
    requires lhs.Length0 >= 2 && lhs.Length1 >= 2 && lhs.Length2 >= 2
  {
    PivotLines(lhs, d, Lines(lhs, d))
  }

  /** No inner line gives a zero pivot. */
  ghost predicate PivotLines(a: array3<Block5>, d: Axis, l: seq<seq<seq<Block5>>>)
    requires Fits(a, d, l) && Along(a, d) >= 2
  {
    forall p, q :: Inner(a, d, p, q) ==> LinePivots(l[p][q])
  }

  /**
   The loop orders of the sweeps: forward plane by plane; backward plane by plane (x and y);
   backward line by line (z).
   */
  datatype Order = Ahead | BackPlanes | BackLines

  /** `(s, p, q)` is visited before `(s0, p0, q0)`. */
  predicate Before(o: Order, s: int, p: int, q: int, s0: int, p0: int, q0: int) {
    match o
    case Ahead => s < s0 || (s == s0 && (p < p0 || (p == p0 && q < q0)))
    case BackPlanes => s > s0 || (s == s0 && (p < p0 || (p == p0 && q < q0)))
    case BackLines => p < p0 || (p == p0 && (q < q0 || (q == q0 && s > s0)))
  }

  /** The lines in `l` have the shape of the grid. */
  ghost predicate Fits<T>(a: array3<T>, d: Axis, l: seq<seq<seq<T>>>) {
    && |l| == Across(a, d)
    && (forall p :: 0 <= p < |l| ==> |l[p]| == Deep(a, d))
    && (forall p, q :: 0 <= p < |l| && 0 <= q < |l[p]| ==> |l[p][q]| == Along(a, d))
  }

  /** Inner cells before `(s0, p0, q0)` in sweep order hold the lines `l'`, all others still `l`. */
  ghost predicate Mixed<T>(a: array3<T>, d: Axis, l: seq<seq<seq<T>>>, l': seq<seq<seq<T>>>, o: Order,
                           s0: int, p0: int, q0: int)
    reads a
    requires Fits(a, d, l) && Fits(a, d, l')
  {
    forall s, p, q :: In(a, d, s, p, q) ==>
      At(a, d, s, p, q) == if Inner(a, d, p, q) && Before(o, s, p, q, s0, p0, q0) then l'[p][q][s] else l[p][q][s]
  }

  method PutNext<T>(a: array3<T>, d: Axis, s: int, p: int, q: int, v: T,
                    ghost l: seq<seq<seq<T>>>, ghost l': seq<seq<seq<T>>>, ghost o: Order)
    requires Fits(a, d, l) && Fits(a, d, l') && In(a, d, s, p, q) && Inner(a, d, p, q)
    requires Mixed(a, d, l, l', o, s, p, q) && v == l'[p][q][s]
    modifies a
    ensures if o.BackLines? then Mixed(a, d, l, l', o, s - 1, p, q) else Mixed(a, d, l, l', o, s, p, q + 1)
  {
    Put(a, d, s, p, q, v);
  }

  // ------------------------------------------------------------------ forward elimination

  /** What the forward sweep leaves in a cell of `lhs`. */
  function Swept(l: seq<Block5>, s: nat): (k: Block5)
    requires IsLine(l) && s < |l|
  {
    Block(l[s].a, Leftover(Reduced(l, s)), if s == |l| - 1 then l[s].c else Upper(l, s))
  }

  function SweptRhs(l: seq<Block5>, r: seq<Vec5>, s: nat): (v: Vec5)
    requires IsLine(l) && IsField(l, r) && s < |l|
  {
    Lower(l, r, s)
  }

  /** `l'` and `r'` are what the forward sweep makes of the lines `l` and `r`. */
  ghost predicate SweptLines(lhs: array3<Block5>, rhs: array3<Vec5>, d: Axis,
                             l: seq<seq<seq<Block5>>>, l': seq<seq<seq<Block5>>>,
                             r: seq<seq<seq<Vec5>>>, r': seq<seq<seq<Vec5>>>)
  {
    && SameGrid(lhs, rhs) && Fits(lhs, d, l) && Fits(lhs, d, l') && Fits(rhs, d, r) && Fits(rhs, d, r')
    && (forall s, p, q {:trigger Swept(l[p][q], s)} :: In(lhs, d, s, p, q) && Inner(lhs, d, p, q) ==>
          l'[p][q][s] == Swept(l[p][q], s))
    && (forall s, p, q {:trigger SweptRhs(l[p][q], r[p][q], s)} :: In(lhs, d, s, p, q) && Inner(lhs, d, p, q) ==>
          r'[p][q][s] == SweptRhs(l[p][q], r[p][q], s))
  }

  /**
   The body of the sweep at one cell: `matvec_sub` and `matmul_sub` with the previous cell unless
   this is the first one, then `binvcrhs`, or `binvrhs` on the last one.
   */
  function SweepStep(cell: Block5, v: Vec5, prev: Block5, w: Vec5, first: bool, last: bool): (Block5, Vec5) {
    var b := SweepPivot(cell, prev, first);
    var y := if first then v else Sub(v, MatVec(cell.a, w));
    (Block(cell.a, Leftover(b), if last then cell.c else Solve(b, cell.c, 5)), SolveVec(b, y))
  }

  lemma {:induction false} SweepStepIs(l: seq<Block5>, r: seq<Vec5>, s: nat, prev: Block5, w: Vec5)
    requires IsLine(l) && IsField(l, r) && s < |l|
    requires s > 0 ==> prev == Swept(l, s - 1) && w == SweptRhs(l, r, s - 1)
    ensures SweepStep(l[s], r[s], prev, w, s == 0, s == |l| - 1) == (Swept(l, s), SweptRhs(l, r, s))
    ensures SweepPivot(l[s], prev, s == 0) == Reduced(l, s)
  {
    var b, y := Reduced(l, s), ReducedRhs(l, r, s);
    if s > 0 {
      assert b == MatSub(l[s].b, MatMul(l[s].a, prev.c, 5), 5);
      assert y == Sub(r[s], MatVec(l[s].a, w));
    }
    assert SweptRhs(l, r, s) == SolveVec(b, y);
  }

  /** The diagonal block that the inversion gets. */
  function SweepPivot(cell: Block5, prev: Block5, first: bool): (b: Mat)
    ensures IsMat(b, 5, 5)
  {
    if first then cell.b else MatSub(cell.b, MatMul(cell.a, prev.c, 5), 5)
  }

  method CopyMat(m: Mat) returns (a: array2<real>)
    requires IsMat(m, 5, 5)
    ensures fresh(a) && a.Length0 == a.Length1 == 5 && MatOf(a) == m
  {
    a := new real[5, 5]((i, j) requires 0 <= i < 5 && 0 <= j < 5 => m[i][j]);
    forall i | 0 <= i < 5 ensures MatOf(a)[i] == m[i] {
    }
  }

  method CopyVec(v: Vec5) returns (a: array<real>)
    ensures fresh(a) && a.Length == 5 && a[..] == v
  {
    a := new real[5](i requires 0 <= i < 5 => v[i]);
  }

  /** The calls of the kernels at one cell, each on its own block. */
  method CallKernels(cell: Block5, v: Vec5, prev: Block5, w: Vec5, first: bool, last: bool) returns (cell': Block5, v': Vec5)
    requires NonzeroPivots(SweepPivot(cell, prev, first), 5, 5)
    ensures (cell', v') == SweepStep(cell, v, prev, w, first, last)
  {
    var a := CopyMat(cell.a);
    var b := CopyMat(cell.b);
    var c := CopyMat(cell.c);
    var r := CopyVec(v);
    if !first {
      var before := CopyVec(w);
      var above := CopyMat(prev.c);
      MatvecSub(a, before, r);
      MatmulSub(a, above, b);
    }
    if last {
      BinvRhs(b, r);
    } else {
      BinvCRhs(b, c, r);
    }
    cell', v' := Block(MatOf(a), MatOf(b), MatOf(c)), r[..];
  }

  method ForwardCell(lhs: array3<Block5>, rhs: array3<Vec5>, d: Axis, s: int, p: int, q: int,
                     ghost l: seq<seq<seq<Block5>>>, ghost l': seq<seq<seq<Block5>>>,
                     ghost r: seq<seq<seq<Vec5>>>, ghost r': seq<seq<seq<Vec5>>>)
    requires SweptLines(lhs, rhs, d, l, l', r, r') && In(lhs, d, s, p, q) && Inner(lhs, d, p, q) && LinePivots(l[p][q])
    requires Mixed(lhs, d, l, l', Ahead, s, p, q) && Mixed(rhs, d, r, r', Ahead, s, p, q)
    modifies lhs, rhs
    ensures Mixed(lhs, d, l, l', Ahead, s, p, q + 1) && Mixed(rhs, d, r, r', Ahead, s, p, q + 1)
  {
    var t := if s == 0 then 0 else s - 1;
    var prev, w := At(lhs, d, t, p, q), At(rhs, d, t, p, q);
    var cell, v := At(lhs, d, s, p, q), At(rhs, d, s, p, q);
    assert cell == l[p][q][s] && v == r[p][q][s];
    if s > 0 {
      assert prev == Swept(l[p][q], t) && w == SweptRhs(l[p][q], r[p][q], t);
    }
    SweepStepIs(l[p][q], r[p][q], s, prev, w);
    cell, v := CallKernels(cell, v, prev, w, s == 0, s == Along(lhs, d) - 1);
    assert cell == l'[p][q][s] && v == r'[p][q][s];
    PutNext(lhs, d, s, p, q, cell, l, l', Ahead);
    PutNext(rhs, d, s, p, q, v, r, r', Ahead);
  }

  method ForwardPlane(lhs: array3<Block5>, rhs: array3<Vec5>, d: Axis, s: int,
                      ghost l: seq<seq<seq<Block5>>>, ghost l': seq<seq<seq<Block5>>>,
                      ghost r: seq<seq<seq<Vec5>>>, ghost r': seq<seq<seq<Vec5>>>)
    requires SweptLines(lhs, rhs, d, l, l', r, r') && 0 <= s < Along(lhs, d) && PivotLines(lhs, d, l)
    requires Mixed(lhs, d, l, l', Ahead, s, 0, 0) && Mixed(rhs, d, r, r', Ahead, s, 0, 0)
    modifies lhs, rhs
    ensures Mixed(lhs, d, l, l', Ahead, s + 1, 0, 0) && Mixed(rhs, d, r, r', Ahead, s + 1, 0, 0)
  {
    for p := 1 to Across(lhs, d) - 1
      invariant Mixed(lhs, d, l, l', Ahead, s, p, 0) && Mixed(rhs, d, r, r', Ahead, s, p, 0)
    {
      ForwardRow(lhs, rhs, d, s, p, l, l', r, r');
    }
  }

  /** The inner loop of a plane. */
  method ForwardRow(lhs: array3<Block5>, rhs: array3<Vec5>, d: Axis, s: int, p: int,
                    ghost l: seq<seq<seq<Block5>>>, ghost l': seq<seq<seq<Block5>>>,
                    ghost r: seq<seq<seq<Vec5>>>, ghost r': seq<seq<seq<Vec5>>>)
    requires SweptLines(lhs, rhs, d, l, l', r, r') && 0 <= s < Along(lhs, d) && 0 < p < Across(lhs, d) - 1 && PivotLines(lhs, d, l)
    requires Mixed(lhs, d, l, l', Ahead, s, p, 0) && Mixed(rhs, d, r, r', Ahead, s, p, 0)
    modifies lhs, rhs
    ensures Mixed(lhs, d, l, l', Ahead, s, p + 1, 0) && Mixed(rhs, d, r, r', Ahead, s, p + 1, 0)
  {
    for q := 1 to Deep(lhs, d) - 1
      invariant Mixed(lhs, d, l, l', Ahead, s, p, q) && Mixed(rhs, d, r, r', Ahead, s, p, q)
    {
      ForwardCell(lhs, rhs, d, s, p, q, l, l', r, r');
    }
  }

  function SweptLine(l: seq<Block5>): (l': seq<Block5>)
    requires IsLine(l)
    ensures |l'| == |l|
  {
    seq(|l|, s requires 0 <= s < |l| => Swept(l, s))
  }

  function SweptRhsLine(l: seq<Block5>, r: seq<Vec5>): (r': seq<Vec5>)
    requires IsLine(l) && IsField(l, r)
    ensures |r'| == |l|
  {
    seq(|l|, s requires 0 <= s < |l| => SweptRhs(l, r, s))
  }

  /** All lines of `lhs` after the forward sweep. */
  ghost function ForwardLhs(a: array3<Block5>, d: Axis, l: seq<seq<seq<Block5>>>): (l': seq<seq<seq<Block5>>>)
    requires Fits(a, d, l) && Along(a, d) >= 2
    ensures Fits(a, d, l')
  {
    seq(|l|, p requires 0 <= p < |l| => seq(|l[p]|, q requires 0 <= q < |l[p]| =>
      if Inner(a, d, p, q) then SweptLine(l[p][q]) else l[p][q]))
  }

  /** All lines of `rhs` after the forward sweep. */
  ghost function ForwardRhs(a: array3<Vec5>, d: Axis, l: seq<seq<seq<Block5>>>, r: seq<seq<seq<Vec5>>>): (r': seq<seq<seq<Vec5>>>)
    requires |l| == |r| && (forall p :: 0 <= p < |l| ==> |l[p]| == |r[p]|) && Fits(a, d, r)
    requires forall p, q :: 0 <= p < |l| && 0 <= q < |l[p]| ==> |l[p][q]| == |r[p][q]| >= 2
    ensures Fits(a, d, r')
  {
    seq(|l|, p requires 0 <= p < |l| => seq(|l[p]|, q requires 0 <= q < |l[p]| =>
      if Inner(a, d, p, q) then SweptRhsLine(l[p][q], r[p][q]) else r[p][q]))
  }

  lemma ForwardTargets(lhs: array3<Block5>, rhs: array3<Vec5>, d: Axis,
                                          l: seq<seq<seq<Block5>>>, r: seq<seq<seq<Vec5>>>)
    requires SameGrid(lhs, rhs) && Fits(lhs, d, l) && Fits(rhs, d, r)
    ensures SweptLines(lhs, rhs, d, l, ForwardLhs(lhs, d, l), r, ForwardRhs(rhs, d, l, r))
  {
  }

  /** When every inner cell is done and the others are not to change, the array holds `l'`. */
  lemma {:induction false} MixedDone<T>(a: array3<T>, d: Axis, l: seq<seq<seq<T>>>, l': seq<seq<seq<T>>>, o: Order,
                                        s0: int, p0: int, q0: int)
    requires Fits(a, d, l) && Fits(a, d, l') && Mixed(a, d, l, l', o, s0, p0, q0)
    requires forall s, p, q :: In(a, d, s, p, q) && Inner(a, d, p, q) ==> Before(o, s, p, q, s0, p0, q0)
    requires forall p, q :: 0 <= p < |l| && 0 <= q < |l[p]| && !Inner(a, d, p, q) ==> l'[p][q] == l[p][q]
    ensures Lines(a, d) == l'
  {
    var k := Lines(a, d);
    forall p | 0 <= p < |k| ensures k[p] == l'[p] {
      forall q | 0 <= q < |k[p]| ensures k[p][q] == l'[p][q] {
        forall s | 0 <= s < |k[p][q]| ensures k[p][q][s] == l'[p][q][s] {
          assert In(a, d, s, p, q);
        }
      }
    }
  }

  /** `x_solve_cell`, `y_solve_cell`, `z_solve_cell`. */
  method SolveCell(lhs: array3<Block5>, rhs: array3<Vec5>, d: Axis)
    requires SameGrid(lhs, rhs)
    requires InnerPivots(lhs, d)
    modifies lhs, rhs
    ensures Lines(lhs, d) == ForwardLhs(lhs, d, old(Lines(lhs, d)))
    ensures Lines(rhs, d) == ForwardRhs(rhs, d, old(Lines(lhs, d)), old(Lines(rhs, d)))
  {
    ghost var l, r := Lines(lhs, d), Lines(rhs, d);
    ghost var l', r' := ForwardLhs(lhs, d, l), ForwardRhs(rhs, d, l, r);
    ForwardTargets(lhs, rhs, d, l, r);
    var size := Along(lhs, d) - 1;
    ForwardPlane(lhs, rhs, d, 0, l, l', r, r');
    for s := 1 to size
      invariant Mixed(lhs, d, l, l', Ahead, s, 0, 0) && Mixed(rhs, d, r, r', Ahead, s, 0, 0)
    {
      ForwardPlane(lhs, rhs, d, s, l, l', r, r');
    }
    ForwardPlane(lhs, rhs, d, size, l, l', r, r');
    MixedDone(lhs, d, l, l', Ahead, size + 1, 0, 0);
    MixedDone(rhs, d, r, r', Ahead, size + 1, 0, 0);
  }

  // ------------------------------------------------------------------ back substitution

  /** The innermost loops of the back substitution: `v := v - c * x`, one product at a time. */
  method BackVec(v: Vec5, c: Mat, x: Vec5) returns (y: Vec5)
    requires IsMat(c, 5, 5)
    ensures y == Sub(v, MatVec(c, x))
  {
    y := v;
    for m := 0 to BLOCK_SIZE
      invariant forall i :: 0 <= i < m ==> y[i] == v[i] - Dot(c[i], x)
      invariant forall i :: m <= i < 5 ==> y[i] == v[i]
    {
      for n := 0 to BLOCK_SIZE
        invariant forall i :: 0 <= i < m ==> y[i] == v[i] - Dot(c[i], x)
        invariant forall i :: m < i < 5 ==> y[i] == v[i]
        invariant y[m] == v[m] - DotTo(c[m], x, n)
      {
        y := y[m := y[m] - c[m][n] * x[n]];
      }
    }
  }

  function BackRhs(l: seq<Block5>, r: seq<Vec5>, s: nat): (v: Vec5)
    requires IsLine(l) && IsField(l, r) && s < |l|
  {
    Back(l, r, s)
  }

  /**
   The state between the two halves of a sweep: `l'`, `r'` are the swept lines and `x` the lines
   that the back substitution is to produce.
   */
  ghost predicate BackLinesOf(lhs: array3<Block5>, rhs: array3<Vec5>, d: Axis,
                              l: seq<seq<seq<Block5>>>, l': seq<seq<seq<Block5>>>,
                              r: seq<seq<seq<Vec5>>>, r': seq<seq<seq<Vec5>>>, x: seq<seq<seq<Vec5>>>)
    reads lhs
  {
    && SweptLines(lhs, rhs, d, l, l', r, r') && Fits(rhs, d, x)
    && Lines(lhs, d) == l'
    && (forall s, p, q {:trigger BackRhs(l[p][q], r[p][q], s)} :: In(rhs, d, s, p, q) && Inner(rhs, d, p, q) ==>
          x[p][q][s] == BackRhs(l[p][q], r[p][q], s))
    && (forall p, q :: Inner(rhs, d, p, q) ==> x[p][q][Along(rhs, d) - 1] == r'[p][q][Along(rhs, d) - 1])
  }

  lemma BackStepIs(l: seq<Block5>, r: seq<Vec5>, s: nat)
    requires IsLine(l) && IsField(l, r) && s < |l| - 1
    ensures Sub(SweptRhs(l, r, s), MatVec(Swept(l, s).c, BackRhs(l, r, s + 1))) == BackRhs(l, r, s)
  {
  }

  method BackCell(lhs: array3<Block5>, rhs: array3<Vec5>, d: Axis, s: int, p: int, q: int, ghost o: Order,
                  ghost l: seq<seq<seq<Block5>>>, ghost l': seq<seq<seq<Block5>>>,
                  ghost r: seq<seq<seq<Vec5>>>, ghost r': seq<seq<seq<Vec5>>>, ghost x: seq<seq<seq<Vec5>>>)
    requires BackLinesOf(lhs, rhs, d, l, l', r, r', x)
    requires In(rhs, d, s, p, q) && In(rhs, d, s + 1, p, q) && Inner(rhs, d, p, q) && !o.Ahead?
    requires Mixed(rhs, d, r', x, o, s, p, q)
    modifies rhs
    ensures if o.BackLines? then Mixed(rhs, d, r', x, o, s - 1, p, q) else Mixed(rhs, d, r', x, o, s, p, q + 1)
  {
    var cell, v, w := At(lhs, d, s, p, q), At(rhs, d, s, p, q), At(rhs, d, s + 1, p, q);
    var y := BackVec(v, cell.c, w);
    assert y == x[p][q][s] by {
      assert cell == Swept(l[p][q], s);
      assert v == SweptRhs(l[p][q], r[p][q], s);
      assert w == BackRhs(l[p][q], r[p][q], s + 1);
      BackStepIs(l[p][q], r[p][q], s);
    }
    PutNext(rhs, d, s, p, q, y, r', x, o);
  }

  /** `x_backsubstitute` and `y_backsubstitute`: plane by plane, from the last but one down. */
  method BackPlanesSweep(lhs: array3<Block5>, rhs: array3<Vec5>, d: Axis,
                         ghost l: seq<seq<seq<Block5>>>, ghost l': seq<seq<seq<Block5>>>,
                         ghost r: seq<seq<seq<Vec5>>>, ghost r': seq<seq<seq<Vec5>>>, ghost x: seq<seq<seq<Vec5>>>)
    requires BackLinesOf(lhs, rhs, d, l, l', r, r', x)
    requires Mixed(rhs, d, r', x, BackPlanes, Along(rhs, d) - 2, 0, 0)
    modifies rhs
    ensures Mixed(rhs, d, r', x, BackPlanes, -1, 0, 0)
  {
    for s := Along(rhs, d) - 1 downto 0
      invariant Mixed(rhs, d, r', x, BackPlanes, s - 1, 0, 0)
    {
      BackPlane(lhs, rhs, d, s, l, l', r, r', x);
    }
  }

  /** One of these planes. */
  method BackPlane(lhs: array3<Block5>, rhs: array3<Vec5>, d: Axis, s: int,
                   ghost l: seq<seq<seq<Block5>>>, ghost l': seq<seq<seq<Block5>>>,
                   ghost r: seq<seq<seq<Vec5>>>, ghost r': seq<seq<seq<Vec5>>>, ghost x: seq<seq<seq<Vec5>>>)
    requires BackLinesOf(lhs, rhs, d, l, l', r, r', x) && 0 <= s < Along(rhs, d) - 1
    requires Mixed(rhs, d, r', x, BackPlanes, s, 0, 0)
    modifies rhs
    ensures Mixed(rhs, d, r', x, BackPlanes, s - 1, 0, 0)
  {
    for p := 1 to Across(rhs, d) - 1
      invariant Mixed(rhs, d, r', x, BackPlanes, s, p, 0)
    {
      for q := 1 to Deep(rhs, d) - 1
        invariant Mixed(rhs, d, r', x, BackPlanes, s, p, q)
      {
        BackCell(lhs, rhs, d, s, p, q, BackPlanes, l, l', r, r', x);
      }
    }
  }

  /** One line of `z_backsubstitute`. */
  method BackLine(lhs: array3<Block5>, rhs: array3<Vec5>, d: Axis, p: int, q: int,
                  ghost l: seq<seq<seq<Block5>>>, ghost l': seq<seq<seq<Block5>>>,
                  ghost r: seq<seq<seq<Vec5>>>, ghost r': seq<seq<seq<Vec5>>>, ghost x: seq<seq<seq<Vec5>>>)
    requires BackLinesOf(lhs, rhs, d, l, l', r, r', x) && Inner(rhs, d, p, q)
    requires Mixed(rhs, d, r', x, BackLines, Along(rhs, d), p, q)
    modifies rhs
    ensures Mixed(rhs, d, r', x, BackLines, -1, p, q)
  {
    for s := Along(rhs, d) - 1 downto 0
      invariant Mixed(rhs, d, r', x, BackLines, s - 1, p, q)
    {
      BackCell(lhs, rhs, d, s, p, q, BackLines, l, l', r, r', x);
    }
  }

  /** `z_backsubstitute`: line by line, each from the last but one down. */
  method BackLinesSweep(lhs: array3<Block5>, rhs: array3<Vec5>, d: Axis,
                        ghost l: seq<seq<seq<Block5>>>, ghost l': seq<seq<seq<Block5>>>,
                        ghost r: seq<seq<seq<Vec5>>>, ghost r': seq<seq<seq<Vec5>>>, ghost x: seq<seq<seq<Vec5>>>)
    requires BackLinesOf(lhs, rhs, d, l, l', r, r', x)
    requires Mixed(rhs, d, r', x, BackLines, Along(rhs, d), 0, 0)
    modifies rhs
    ensures Mixed(rhs, d, r', x, BackLines, Along(rhs, d), Across(rhs, d), 0)
  {
    for p := 1 to Across(rhs, d) - 1
      invariant Mixed(rhs, d, r', x, BackLines, Along(rhs, d), p, 0)
    {
      for q := 1 to Deep(rhs, d) - 1
        invariant Mixed(rhs, d, r', x, BackLines, Along(rhs, d), p, q)
      {
        BackLine(lhs, rhs, d, p, q, l, l', r, r', x);
      }
    }
  }

  function SolvedLine(l: seq<Block5>, r: seq<Vec5>): (x: seq<Vec5>)
    requires IsLine(l) && IsField(l, r)
    ensures |x| == |l|
  {
    seq(|l|, s requires 0 <= s < |l| => BackRhs(l, r, s))
  }

  /** All lines of `rhs` after a complete sweep: the inner ones are solved, the others untouched. */
  ghost function Solved(a: array3<Vec5>, d: Axis, l: seq<seq<seq<Block5>>>, r: seq<seq<seq<Vec5>>>): (x: seq<seq<seq<Vec5>>>)
    requires |l| == |r| && (forall p :: 0 <= p < |l| ==> |l[p]| == |r[p]|) && Fits(a, d, r)
    requires forall p, q :: 0 <= p < |l| && 0 <= q < |l[p]| ==> |l[p][q]| == |r[p][q]| >= 2
    ensures Fits(a, d, x)
  {
    seq(|l|, p requires 0 <= p < |l| => seq(|l[p]|, q requires 0 <= q < |l[p]| =>
      if Inner(a, d, p, q) then SolvedLine(l[p][q], r[p][q]) else r[p][q]))
  }

  lemma {:induction false} BackTargets(lhs: array3<Block5>, rhs: array3<Vec5>, d: Axis,
                                       l: seq<seq<seq<Block5>>>, r: seq<seq<seq<Vec5>>>)
    requires SameGrid(lhs, rhs) && Fits(lhs, d, l) && Fits(rhs, d, r)
    requires Lines(lhs, d) == ForwardLhs(lhs, d, l)
    ensures BackLinesOf(lhs, rhs, d, l, ForwardLhs(lhs, d, l), r, ForwardRhs(rhs, d, l, r), Solved(rhs, d, l, r))
  {
    ForwardTargets(lhs, rhs, d, l, r);
    var n := Along(rhs, d) - 1;
    forall p, q | Inner(rhs, d, p, q)
      ensures Solved(rhs, d, l, r)[p][q][n] == ForwardRhs(rhs, d, l, r)[p][q][n]
    {
      assert BackRhs(l[p][q], r[p][q], n) == SweptRhs(l[p][q], r[p][q], n);
    }
  }

  /** The back substitution of one axis. */
  method BackSubstitute(lhs: array3<Block5>, rhs: array3<Vec5>, d: Axis,
                        ghost l: seq<seq<seq<Block5>>>, ghost r: seq<seq<seq<Vec5>>>)
    requires SameGrid(lhs, rhs) && Fits(lhs, d, l) && Fits(rhs, d, r)
    requires Lines(lhs, d) == ForwardLhs(lhs, d, l) && Lines(rhs, d) == ForwardRhs(rhs, d, l, r)
    modifies rhs
    ensures Lines(rhs, d) == Solved(rhs, d, l, r)
  {
    ghost var l', r', x := ForwardLhs(lhs, d, l), ForwardRhs(rhs, d, l, r), Solved(rhs, d, l, r);
    BackTargets(lhs, rhs, d, l, r);
    assert forall p, q :: 0 <= p < |r| && 0 <= q < |r[p]| && !Inner(rhs, d, p, q) ==> x[p][q] == r'[p][q];
    if d == Z {
      BackLinesSweep(lhs, rhs, d, l, l', r, r', x);
      MixedDone(rhs, d, r', x, BackLines, Along(rhs, d), Across(rhs, d), 0);
    } else {
      BackPlanesSweep(lhs, rhs, d, l, l', r, r', x);
      MixedDone(rhs, d, r', x, BackPlanes, -1, 0, 0);
    }
  }

  /** The whole of `x_solve`, `y_solve` or `z_solve` once `lhs` is set up. */
  method Sweep(lhs: array3<Block5>, rhs: array3<Vec5>, d: Axis)
    requires SameGrid(lhs, rhs)
    requires InnerPivots(lhs, d)
    modifies lhs, rhs
    ensures Lines(lhs, d) == ForwardLhs(lhs, d, old(Lines(lhs, d)))
    ensures Lines(rhs, d) == Solved(rhs, d, old(Lines(lhs, d)), old(Lines(rhs, d)))
  {
    ghost var l, r := Lines(lhs, d), Lines(rhs, d);
    SolveCell(lhs, rhs, d);
    BackSubstitute(lhs, rhs, d, l, r);
  }

  /** After a sweep every inner line of `rhs` solves its block-tridiagonal system, and nothing else does. */
  lemma {:induction false} SweepSolves(a: array3<Vec5>, d: Axis, l: seq<seq<seq<Block5>>>, r: seq<seq<seq<Vec5>>>,
                                       p: int, q: int, y: seq<Vec5>)
    requires |l| == |r| && (forall p :: 0 <= p < |l| ==> |l[p]| == |r[p]|) && Fits(a, d, r)
    requires forall p, q :: 0 <= p < |l| && 0 <= q < |l[p]| ==> |l[p][q]| == |r[p][q]| >= 2
    requires Inner(a, d, p, q) && LinePivots(l[p][q])
    ensures LineSystem(l[p][q], r[p][q], y) <==> y == Solved(a, d, l, r)[p][q]
  {
    LineSolved(l[p][q], r[p][q], y);
    assert Solved(a, d, l, r)[p][q] == Solution(l[p][q], r[p][q]);
  }
}
