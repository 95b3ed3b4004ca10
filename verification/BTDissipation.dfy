/**
 The dissipation loops of `compute_rhs` as they run on the grid: five loop nests per axis that
 update `rhs` in place and read `u`.
 */
module BTDissipation {
  import opened LinAlg
  import opened BTSweep
  import D = Dissipation

  /** All lines of a grid along one axis, as values. */
  type Lines5 = seq<seq<seq<Vec5>>>

  /** Component `m` along one line. */
  function Component(line: seq<Vec5>, m: nat): (v: D.Line)
    requires m < 5
    ensures |v| == |line|
  {
    seq(|line|, s requires 0 <= s < |line| => line[s][m])
  }

  /** What one iteration subtracts at point `s`: `dssp * stencil`, for all five components. */
  function Amount(line: seq<Vec5>, dssp: real, piece: D.Piece, s: int): Vec5 {
    seq(5, m requires 0 <= m < 5 => dssp * D.Stencil(piece, Component(line, m), s))
  }

  /** What the first `k` iterations on a line subtract at point `s`. */
  function LossTo(line: seq<Vec5>, dssp: real, k: nat, s: int): Vec5
    requires k <= |D.Iterations(|line|)|
  {
    if k == 0 then Zero(5)
    else
      var (piece, at) := D.Iterations(|line|)[k - 1];
      var before := LossTo(line, dssp, k - 1, s);
      if at == s then Add(before, Amount(line, dssp, piece, s)) else before
  }

  /** What all nests together subtract at point `s` of a line. */
  function Loss(line: seq<Vec5>, dssp: real, s: int): Vec5 {
    LossTo(line, dssp, |D.Iterations(|line|)|, s)
  }

  function LineAfter(r: seq<Vec5>, line: seq<Vec5>, dssp: real, k: nat): (x: seq<Vec5>)
    requires k <= |D.Iterations(|line|)|
    ensures |x| == |r|
  {
    seq(|r|, s requires 0 <= s < |r| => Sub(r[s], LossTo(line, dssp, k, s)))
  }

  /** All lines after `k` iterations: the inner ones have lost their part, the others are untouched. */
  ghost function LinesAfter(a: array3<Vec5>, d: Axis, r: Lines5, u: Lines5, dssp: real, k: nat)
    : (x: Lines5)
    requires Fits(a, d, r) && Fits(a, d, u) && k <= |D.Iterations(Along(a, d))|
    ensures Fits(a, d, x)
  {
    seq(|r|, p requires 0 <= p < |r| => seq(|r[p]|, q requires 0 <= q < |r[p]| =>
      if Inner(a, d, p, q) then LineAfter(r[p][q], u[p][q], dssp, k) else r[p][q]))
  }

  /** A line of `u`, read from the grid. */
  function LineAt(u: array3<Vec5>, d: Axis, p: int, q: int): (l: seq<Vec5>)
    requires 0 <= p < Across(u, d) && 0 <= q < Deep(u, d)
    reads u
    ensures |l| == Along(u, d)
  {
    seq(Along(u, d), s requires 0 <= s < Along(u, d) reads u => At(u, d, s, p, q))
  }

  predicate SameShape(a: array3<Vec5>, b: array3<Vec5>) {
    && a.Length0 == b.Length0 && a.Length1 == b.Length1 && a.Length2 == b.Length2
    && a.Length0 >= 2 && a.Length1 >= 2 && a.Length2 >= 2
  }

  /** `u` holds the lines `g`; `l` and `l'` are the lines of `rhs` before and after an iteration at point `s`. */
  ghost predicate Iteration(rhs: array3<Vec5>, u: array3<Vec5>, d: Axis, dssp: real, piece: D.Piece, s: int,
                            g: Lines5, l: Lines5, l': Lines5)
    reads u
  {
    && rhs != u && SameShape(rhs, u) && 0 <= s < Along(rhs, d)
    && Fits(rhs, d, g) && Fits(rhs, d, l) && Fits(rhs, d, l') && Lines(u, d) == g
    && (forall p, q :: Inner(rhs, d, p, q) ==> l'[p][q] == l[p][q][s := Sub(l[p][q][s], Amount(g[p][q], dssp, piece, s))])
    && (forall p, q :: 0 <= p < |l| && 0 <= q < |l[p]| && !Inner(rhs, d, p, q) ==> l'[p][q] == l[p][q])
  }

  method DampCell(rhs: array3<Vec5>, u: array3<Vec5>, d: Axis, dssp: real, piece: D.Piece, s: int, p: int, q: int,
                  ghost g: Lines5, ghost l: Lines5, ghost l': Lines5)
    requires Iteration(rhs, u, d, dssp, piece, s, g, l, l') && Inner(rhs, d, p, q)
    requires Mixed(rhs, d, l, l', Ahead, s, p, q)
    modifies rhs
    ensures Mixed(rhs, d, l, l', Ahead, s, p, q + 1)
  {
    var line := LineAt(u, d, p, q);
    assert line == g[p][q] && At(rhs, d, s, p, q) == l[p][q][s];
    var v := Sub(At(rhs, d, s, p, q), Amount(line, dssp, piece, s));
    PutNext(rhs, d, s, p, q, v, l, l', Ahead);
  }

  /** One nest at one point `s`: a loop over all inner lines. */
  method DampPlane(rhs: array3<Vec5>, u: array3<Vec5>, d: Axis, dssp: real, piece: D.Piece, s: int,
                   ghost g: Lines5, ghost l: Lines5, ghost l': Lines5)
    requires Iteration(rhs, u, d, dssp, piece, s, g, l, l') && Lines(rhs, d) == l
    modifies rhs
    ensures Lines(rhs, d) == l' && Lines(u, d) == g
  {
    IterationSameBut(rhs, u, d, dssp, piece, s, g, l, l');
    StartPlane(rhs, d, s, l, l');
    for p := 1 to Across(rhs, d) - 1
      invariant Mixed(rhs, d, l, l', Ahead, s, p, 0)
    {
      for q := 1 to Deep(rhs, d) - 1
        invariant Mixed(rhs, d, l, l', Ahead, s, p, q)
      {
        DampCell(rhs, u, d, dssp, piece, s, p, q, g, l, l');
      }
    }
    EndPlane(rhs, d, s, l, l');
  }

  /** Two sets of lines that differ at most at point `s` of the inner lines. */
  ghost predicate SameBut(a: array3<Vec5>, d: Axis, s: int, l: Lines5, l': Lines5)
    requires Fits(a, d, l) && Fits(a, d, l')
  {
    forall s', p, q :: In(a, d, s', p, q) && (s' != s || !Inner(a, d, p, q)) ==> l'[p][q][s'] == l[p][q][s']
  }

  lemma {:induction false} IterationSameBut(rhs: array3<Vec5>, u: array3<Vec5>, d: Axis, dssp: real, piece: D.Piece, s: int,
                                            g: Lines5, l: Lines5, l': Lines5)
    requires Iteration(rhs, u, d, dssp, piece, s, g, l, l')
    ensures SameBut(rhs, d, s, l, l')
  {
    forall s', p, q | In(rhs, d, s', p, q) && (s' != s || !Inner(rhs, d, p, q)) ensures l'[p][q][s'] == l[p][q][s'] {
    }
  }

  lemma StartPlane(a: array3<Vec5>, d: Axis, s: int, l: Lines5, l': Lines5)
    requires Fits(a, d, l) && Fits(a, d, l') && Lines(a, d) == l && SameBut(a, d, s, l, l')
    ensures Mixed(a, d, l, l', Ahead, s, 0, 0)
  {
  }

  lemma {:induction false} EndPlane(a: array3<Vec5>, d: Axis, s: int, l: Lines5, l': Lines5)
    requires Fits(a, d, l) && Fits(a, d, l') && Mixed(a, d, l, l', Ahead, s, Across(a, d) - 1, 0) && SameBut(a, d, s, l, l')
    ensures Lines(a, d) == l'
  {
    var k := Lines(a, d);
    forall p | 0 <= p < |k| ensures k[p] == l'[p] {
      forall q | 0 <= q < |k[p]| ensures k[p][q] == l'[p][q] {
        forall s' | 0 <= s' < |k[p][q]| ensures k[p][q][s'] == l'[p][q][s'] {
          assert In(a, d, s', p, q);
        }
      }
    }
  }

  // ------------------------------------------------------------------ all nests of an axis

  lemma SubSub(x: Vec5, y: Vec5, z: Vec5)
    ensures Sub(Sub(x, y), z) == Sub(x, Add(y, z))
  {
  }

  lemma {:induction false} LineNext(r: seq<Vec5>, line: seq<Vec5>, dssp: real, k: nat, piece: D.Piece, s: int)
    requires |r| == |line| && k < |D.Iterations(|line|)| && D.Iterations(|line|)[k] == (piece, s) && 0 <= s < |line|
    ensures var l := LineAfter(r, line, dssp, k);
            LineAfter(r, line, dssp, k + 1) == l[s := Sub(l[s], Amount(line, dssp, piece, s))]
  {
    var l, l' := LineAfter(r, line, dssp, k), LineAfter(r, line, dssp, k + 1);
    forall s' | 0 <= s' < |l| ensures l'[s'] == if s' == s then Sub(l[s], Amount(line, dssp, piece, s)) else l[s'] {
      SubSub(r[s'], LossTo(line, dssp, k, s'), Amount(line, dssp, piece, s'));
    }
  }

  lemma {:induction false} NextIteration(rhs: array3<Vec5>, u: array3<Vec5>, d: Axis, dssp: real, piece: D.Piece, s: int,
                                         r: Lines5, g: Lines5, k: nat)
    requires rhs != u && SameShape(rhs, u) && Fits(rhs, d, r) && Lines(u, d) == g && Fits(rhs, d, g)
    requires k < |D.Iterations(Along(rhs, d))| && D.Iterations(Along(rhs, d))[k] == (piece, s) && 0 <= s < Along(rhs, d)
    ensures Iteration(rhs, u, d, dssp, piece, s, g, LinesAfter(rhs, d, r, g, dssp, k), LinesAfter(rhs, d, r, g, dssp, k + 1))
  {
    forall p, q | Inner(rhs, d, p, q)
      ensures var l := LineAfter(r[p][q], g[p][q], dssp, k);
              LineAfter(r[p][q], g[p][q], dssp, k + 1) == l[s := Sub(l[s], Amount(g[p][q], dssp, piece, s))]
    {
      LineNext(r[p][q], g[p][q], dssp, k, piece, s);
    }
  }

  /** `ls` are the lines of `rhs` before, between and after the iterations. */
  ghost predicate Stages(rhs: array3<Vec5>, u: array3<Vec5>, d: Axis, dssp: real, g: Lines5, ls: seq<Lines5>)
    reads u
  {
    && |ls| == |D.Iterations(Along(rhs, d))| + 1
    && forall k {:trigger StageAt(rhs, u, d, dssp, g, ls, k)} :: 0 <= k < |ls| - 1 ==> StageAt(rhs, u, d, dssp, g, ls, k)
  }

  ghost predicate StageAt(rhs: array3<Vec5>, u: array3<Vec5>, d: Axis, dssp: real, g: Lines5, ls: seq<Lines5>, k: nat)
    requires k + 1 < |ls| == |D.Iterations(Along(rhs, d))| + 1
    reads u
  {
    Iteration(rhs, u, d, dssp, D.Iterations(Along(rhs, d))[k].0, D.Iterations(Along(rhs, d))[k].1, g, ls[k], ls[k + 1])
  }

  lemma {:induction false} StagesOf(rhs: array3<Vec5>, u: array3<Vec5>, d: Axis, dssp: real, r: Lines5, g: Lines5) returns (ls: seq<Lines5>)
    requires rhs != u && SameShape(rhs, u) && Along(rhs, d) >= 5 && Fits(rhs, d, r) && Lines(u, d) == g && Fits(rhs, d, g)
    ensures Stages(rhs, u, d, dssp, g, ls) && ls[0] == r
    ensures ls[|D.Iterations(Along(rhs, d))|] == LinesAfter(rhs, d, r, g, dssp, |D.Iterations(Along(rhs, d))|)
  {
    var its := D.Iterations(Along(rhs, d));
    ls := seq(|its| + 1, k requires 0 <= k <= |its| => LinesAfter(rhs, d, r, g, dssp, k));
    NothingLost(rhs, d, r, g, dssp);
    forall k | 0 <= k < |its| ensures StageAt(rhs, u, d, dssp, g, ls, k) {
      NextIteration(rhs, u, d, dssp, its[k].0, its[k].1, r, g, k);
    }
  }

  /** One iteration on the whole grid. */
  method DampOnce(rhs: array3<Vec5>, u: array3<Vec5>, d: Axis, dssp: real, piece: D.Piece, s: int,
                  ghost g: Lines5, ghost ls: seq<Lines5>, ghost k: nat)
    requires Stages(rhs, u, d, dssp, g, ls) && k + 1 < |ls| && Lines(rhs, d) == ls[k] && Lines(u, d) == g
    requires D.Iterations(Along(rhs, d))[k] == (piece, s)
    modifies rhs
    ensures Stages(rhs, u, d, dssp, g, ls) && Lines(rhs, d) == ls[k + 1] && Lines(u, d) == g
  {
    assert StageAt(rhs, u, d, dssp, g, ls, k);
    DampPlane(rhs, u, d, dssp, piece, s, g, ls[k], ls[k + 1]);
  }

  lemma {:induction false} NothingLost(a: array3<Vec5>, d: Axis, r: Lines5, u: Lines5, dssp: real)
    requires Fits(a, d, r) && Fits(a, d, u)
    ensures LinesAfter(a, d, r, u, dssp, 0) == r
  {
    var x := LinesAfter(a, d, r, u, dssp, 0);
    forall p | 0 <= p < |r| ensures x[p] == r[p] {
      forall q | 0 <= q < |r[p]| ensures x[p][q] == r[p][q] {
        forall s | 0 <= s < |r[p][q]| ensures x[p][q][s] == r[p][q][s] {
        }
      }
    }
  }

  /** The number of the first iteration after the middle loop. */
  function AfterMiddle(n: int): int {
    if n >= 6 then n - 4 else 2
  }

  lemma IterationsAre(n: int)
    requires n >= 5
    ensures var its := D.Iterations(n);
            && |its| == AfterMiddle(n) + 2 && its[0] == (D.First, 1) && its[1] == (D.Second, 2)
            && (forall k :: 2 <= k < AfterMiddle(n) ==> its[k] == (D.Middle, k + 1))
            && its[AfterMiddle(n)] == (D.NextToLast, n - 3) && its[AfterMiddle(n) + 1] == (D.Last, n - 2)
  {
  }

  /** The loop in the middle; there is nothing to do with fewer than seven points. */
  method DampMiddle(rhs: array3<Vec5>, u: array3<Vec5>, d: Axis, dssp: real, ghost g: Lines5, ghost ls: seq<Lines5>)
    requires Along(rhs, d) >= 5 && Stages(rhs, u, d, dssp, g, ls) && Lines(rhs, d) == ls[2] && Lines(u, d) == g
    requires rhs != u
    modifies rhs
    ensures Stages(rhs, u, d, dssp, g, ls) && Lines(rhs, d) == ls[AfterMiddle(Along(rhs, d))] && Lines(u, d) == g
  {
    var n := Along(rhs, d);
    IterationsAre(n);
    var s := 3;
    while s < n - 3
      invariant 3 <= s && (if n >= 6 then s <= n - 3 else s == 3)
      invariant Stages(rhs, u, d, dssp, g, ls) && Lines(rhs, d) == ls[s - 1] && Lines(u, d) == g
    {
      DampOnce(rhs, u, d, dssp, D.Middle, s, g, ls, s - 1);
      s := s + 1;
    }
  }

  /** The five nests of one axis, in program order; with five points the second and the fourth meet at the same point. */
  method DampAxis(rhs: array3<Vec5>, u: array3<Vec5>, d: Axis, dssp: real)
    requires rhs != u && SameShape(rhs, u) && Along(rhs, d) >= 5
    modifies rhs
    ensures Lines(rhs, d) == LinesAfter(rhs, d, old(Lines(rhs, d)), old(Lines(u, d)), dssp, |D.Iterations(Along(rhs, d))|)
  {
    ghost var r, g := Lines(rhs, d), Lines(u, d);
    var n := Along(rhs, d);
    ghost var ls := StagesOf(rhs, u, d, dssp, r, g);
    IterationsAre(n);
    DampOnce(rhs, u, d, dssp, D.First, 1, g, ls, 0);
    DampOnce(rhs, u, d, dssp, D.Second, 2, g, ls, 1);
    DampMiddle(rhs, u, d, dssp, g, ls);
    DampOnce(rhs, u, d, dssp, D.NextToLast, n - 3, g, ls, AfterMiddle(n));
    DampOnce(rhs, u, d, dssp, D.Last, n - 2, g, ls, AfterMiddle(n) + 1);
  }

  // ------------------------------------------------------------------ what is lost

  /** With six or more points each interior point is met once, by its own piece. */
  lemma {:induction false} LossToIs(line: seq<Vec5>, dssp: real, k: nat, s: int)
    requires |line| >= 6 && k <= |D.Iterations(|line|)|
    ensures LossTo(line, dssp, k, s) == if 1 <= s <= k then Amount(line, dssp, D.PieceAt(|line|, s), s) else Zero(5)
  {
    D.IterationsCover(|line|);
    if k > 0 {
      LossToIs(line, dssp, k - 1, s);
      if s == k {
        var a := Amount(line, dssp, D.PieceAt(|line|, s), s);
        assert Add(Zero(5), a) == a;
      }
    }
  }

  lemma AmountIs(line: seq<Vec5>, dssp: real, piece: D.Piece, s: int, m: nat, x: real)
    requires m < 5 && D.Stencil(piece, Component(line, m), s) == x
    ensures Amount(line, dssp, piece, s)[m] == dssp * x
  {
  }

  lemma {:induction false} OwnStencil(v: D.Line, s: int, x: real)
    requires |v| >= 6 && 1 <= s <= |v| - 2 && x == D.Biharmonic(v)[s]
    ensures D.Stencil(D.PieceAt(|v|, s), v, s) == x
  {
    D.StencilIsBiharmonic(v, s);
  }

  /** On every inner line the nests subtract `dssp` times the squared Laplacian of every component. */
  lemma {:induction false} LossIsBiharmonic(line: seq<Vec5>, dssp: real, s: int, m: nat, x: real)
    requires |line| >= 6 && 0 < s < |line| - 1 && m < 5 && x == D.Biharmonic(Component(line, m))[s]
    ensures Loss(line, dssp, s)[m] == dssp * x
  {
    OwnStencil(Component(line, m), s, x);
    AmountIs(line, dssp, D.PieceAt(|line|, s), s, m, x);
    D.IterationsCover(|line|);
    LossToIs(line, dssp, |D.Iterations(|line|)|, s);
  }

  /** Nothing is subtracted at the ends of a line. */
  lemma {:induction false} EndsLoseNothing(line: seq<Vec5>, dssp: real, k: nat, s: int)
    requires |line| >= 5 && k <= |D.Iterations(|line|)| && (s == 0 || s == |line| - 1)
    ensures LossTo(line, dssp, k, s) == Zero(5)
  {
    if k > 0 {
      EndsLoseNothing(line, dssp, k - 1, s);
      assert 1 <= D.Iterations(|line|)[k - 1].1 <= |line| - 2;
    }
  }

  // ------------------------------------------------------------------ the energy that is taken

  /** What component `m` of a line loses, point by point. */
  function Taken(r: seq<Vec5>, x: seq<Vec5>, m: nat): (l: D.Line)
    requires |r| == |x| && m < 5
    ensures |l| == |r|
  {
    seq(|r|, s requires 0 <= s < |r| => r[s][m] - x[s][m])
  }

  /** The sum over the interior of a line of component `m` of `u` times what is taken. */
  function LineWork(u: seq<Vec5>, r: seq<Vec5>, x: seq<Vec5>, m: nat): real
    requires |u| == |r| == |x| >= 2 && m < 5
  {
    D.Inner(Component(u, m), Taken(r, x, m), |u| - 2)
  }

  /** The sum of the squares of the Laplacian of component `m` of a line. */
  function LineSquares(u: seq<Vec5>, m: nat): real
    requires |u| >= 2 && m < 5
  {
    D.Inner(D.Laplacian(Component(u, m)), D.Laplacian(Component(u, m)), |u| - 2)
  }

  /** `h` is multiplication by `c`. Sums below speak of `h`, so that their proofs need no products. */
  ghost predicate Multiplies(h: real -> real, c: real) {
    forall x :: h(x) == c * x
  }

  lemma Multiplier(c: real) returns (h: real -> real)
    ensures Multiplies(h, c)
  {
    h := x => c * x;
  }

  lemma {:induction false} Additive(h: real -> real, c: real, x: real, y: real)
    requires Multiplies(h, c)
    ensures h(x + y) == h(x) + h(y) && h(0.0) == 0.0
  {
    assert c * (x + y) == c * x + c * y;
  }

  lemma {:induction false} TakenTerm(h: real -> real, c: real, u: real, b: real)
    requires Multiplies(h, c)
    ensures u * h(b) == h(u * b)
  {
    assert u * (c * b) == c * (u * b);
  }

  lemma {:induction false} InnerScaled(v: D.Line, a: D.Line, b: D.Line, h: real -> real, c: real, k: nat)
    requires |v| == |a| == |b| && k < |v| && Multiplies(h, c) && forall s :: 1 <= s <= k ==> a[s] == h(b[s])
    ensures D.Inner(v, a, k) == h(D.Inner(v, b, k))
  {
    if k == 0 {
      Additive(h, c, 0.0, 0.0);
    } else {
      InnerScaled(v, a, b, h, c, k - 1);
      TakenTerm(h, c, v[k], b[k]);
      Additive(h, c, D.Inner(v, b, k - 1), v[k] * b[k]);
    }
  }

  lemma {:induction false} TakenIs(u: seq<Vec5>, r: seq<Vec5>, dssp: real, m: nat, s: nat, b: real, p: real)
    requires |u| == |r| >= 6 && m < 5 && 1 <= s <= |u| - 2 && b == D.Biharmonic(Component(u, m))[s] && p == dssp * b
    ensures Taken(r, LineAfter(r, u, dssp, |D.Iterations(|u|)|), m)[s] == p
  {
    LossIsBiharmonic(u, dssp, s, m, b);
    var n, loss := |D.Iterations(|u|)|, Loss(u, dssp, s);
    assert loss[m] == p;
    assert LineAfter(r, u, dssp, n)[s] == Sub(r[s], loss);
  }

  lemma {:induction false} TakenAt(u: seq<Vec5>, r: seq<Vec5>, h: real -> real, dssp: real, m: nat, s: nat, x: real, b: real)
    requires |u| == |r| >= 6 && m < 5 && Multiplies(h, dssp) && 1 <= s <= |u| - 2 && b == D.Biharmonic(Component(u, m))[s]
    requires x == Taken(r, LineAfter(r, u, dssp, |D.Iterations(|u|)|), m)[s]
    ensures x == h(b)
  {
    var p := h(b);
    assert p == dssp * b;
    TakenIs(u, r, dssp, m, s, b, p);
  }

  lemma {:induction false} AllTaken(u: seq<Vec5>, r: seq<Vec5>, h: real -> real, dssp: real, m: nat, t: D.Line, b: D.Line)
    requires |u| == |r| >= 6 && m < 5 && Multiplies(h, dssp)
    requires t == Taken(r, LineAfter(r, u, dssp, |D.Iterations(|u|)|), m) && b == D.Biharmonic(Component(u, m))
    ensures forall s :: 1 <= s <= |u| - 2 ==> t[s] == h(b[s])
  {
    forall s | 1 <= s <= |u| - 2 ensures t[s] == h(b[s]) {
      TakenAt(u, r, h, dssp, m, s, t[s], b[s]);
    }
  }

  /** On one line, for one component: `u` times what is taken is `dssp` times a sum of squares. */
  lemma {:induction false} LineEnergy(u: seq<Vec5>, r: seq<Vec5>, h: real -> real, dssp: real, m: nat)
    requires |u| == |r| >= 6 && m < 5 && Multiplies(h, dssp)
    ensures LineWork(u, r, LineAfter(r, u, dssp, |D.Iterations(|u|)|), m) == h(LineSquares(u, m))
    ensures LineSquares(u, m) >= 0.0
  {
    var v, t := Component(u, m), Taken(r, LineAfter(r, u, dssp, |D.Iterations(|u|)|), m);
    var b := D.Biharmonic(v);
    AllTaken(u, r, h, dssp, m, t, b);
    InnerScaled(v, t, b, h, dssp, |u| - 2);
    D.Dissipates(v);
  }

  function Sum(f: seq<real>): real {
    if f == [] then 0.0 else Sum(f[..|f| - 1]) + f[|f| - 1]
  }

  function RowSum(f: seq<seq<real>>): real {
    if f == [] then 0.0 else RowSum(f[..|f| - 1]) + Sum(f[|f| - 1])
  }

  function Total(f: seq<seq<seq<real>>>): real {
    if f == [] then 0.0 else Total(f[..|f| - 1]) + RowSum(f[|f| - 1])
  }

  /** Two arrays of numbers of the same shape: one is `h` of the other, and the other is nowhere negative. */
  ghost predicate Scaled(f: seq<real>, g: seq<real>, h: real -> real) {
    |f| == |g| && forall i :: 0 <= i < |f| ==> f[i] == h(g[i]) && g[i] >= 0.0
  }

  ghost predicate RowsScaled(f: seq<seq<real>>, g: seq<seq<real>>, h: real -> real) {
    |f| == |g| && forall i :: 0 <= i < |f| ==> Scaled(f[i], g[i], h)
  }

  ghost predicate AllScaled(f: seq<seq<seq<real>>>, g: seq<seq<seq<real>>>, h: real -> real) {
    |f| == |g| && forall i :: 0 <= i < |f| ==> RowsScaled(f[i], g[i], h)
  }

  lemma {:induction false} SumScaled(f: seq<real>, g: seq<real>, h: real -> real, c: real)
    requires Multiplies(h, c) && Scaled(f, g, h)
    ensures Sum(f) == h(Sum(g)) && Sum(g) >= 0.0
  {
    Additive(h, c, 0.0, 0.0);
    if f != [] {
      var k := |f| - 1;
      SumScaled(f[..k], g[..k], h, c);
      Additive(h, c, Sum(g[..k]), g[k]);
    }
  }

  lemma {:induction false} RowScaled(f: seq<seq<real>>, g: seq<seq<real>>, h: real -> real, c: real)
    requires Multiplies(h, c) && RowsScaled(f, g, h)
    ensures RowSum(f) == h(RowSum(g)) && RowSum(g) >= 0.0
  {
    Additive(h, c, 0.0, 0.0);
    if f != [] {
      var k := |f| - 1;
      RowScaled(f[..k], g[..k], h, c);
      SumScaled(f[k], g[k], h, c);
      Additive(h, c, RowSum(g[..k]), Sum(g[k]));
    }
  }

  lemma {:induction false} TotalScaled(f: seq<seq<seq<real>>>, g: seq<seq<seq<real>>>, h: real -> real, c: real)
    requires Multiplies(h, c) && AllScaled(f, g, h)
    ensures Total(f) == h(Total(g)) && Total(g) >= 0.0
  {
    Additive(h, c, 0.0, 0.0);
    if f != [] {
      var k := |f| - 1;
      TotalScaled(f[..k], g[..k], h, c);
      RowScaled(f[k], g[k], h, c);
      Additive(h, c, Total(g[..k]), RowSum(g[k]));
    }
  }

  /** The work on every inner line and component of the grid. */
  ghost function Works(a: array3<Vec5>, d: Axis, u: Lines5, r: Lines5, x: Lines5): seq<seq<seq<real>>>
    requires a.Length0 >= 2 && a.Length1 >= 2 && a.Length2 >= 2 && Fits(a, d, u) && Fits(a, d, r) && Fits(a, d, x)
  {
    seq(Across(a, d) - 2, p requires 0 <= p < Across(a, d) - 2 => seq(Deep(a, d) - 2, q requires 0 <= q < Deep(a, d) - 2 =>
      seq(5, m requires 0 <= m < 5 => LineWork(u[p + 1][q + 1], r[p + 1][q + 1], x[p + 1][q + 1], m))))
  }

  ghost function Squares(a: array3<Vec5>, d: Axis, u: Lines5): seq<seq<seq<real>>>
    requires a.Length0 >= 2 && a.Length1 >= 2 && a.Length2 >= 2 && Fits(a, d, u)
  {
    seq(Across(a, d) - 2, p requires 0 <= p < Across(a, d) - 2 => seq(Deep(a, d) - 2, q requires 0 <= q < Deep(a, d) - 2 =>
      seq(5, m requires 0 <= m < 5 => LineSquares(u[p + 1][q + 1], m))))
  }

  lemma {:induction false} LineScaled(u: seq<Vec5>, r: seq<Vec5>, h: real -> real, dssp: real, x: seq<Vec5>, f: seq<real>, g: seq<real>)
    requires |u| == |r| >= 6 && Multiplies(h, dssp) && x == LineAfter(r, u, dssp, |D.Iterations(|u|)|) && |f| == |g| == 5
    requires forall m :: 0 <= m < 5 ==> f[m] == LineWork(u, r, x, m)
    requires forall m :: 0 <= m < 5 ==> g[m] == LineSquares(u, m)
    ensures Scaled(f, g, h)
  {
    forall m | 0 <= m < 5 ensures f[m] == h(g[m]) && g[m] >= 0.0 {
      LineEnergy(u, r, h, dssp, m);
    }
  }

  lemma {:induction false} InnerScaledAt(a: array3<Vec5>, d: Axis, r: Lines5, u: Lines5, h: real -> real, dssp: real, x: Lines5,
                                         p: nat, q: nat)
    requires a.Length0 >= 2 && a.Length1 >= 2 && a.Length2 >= 2 && Along(a, d) >= 6 && Fits(a, d, r) && Fits(a, d, u)
    requires Multiplies(h, dssp) && x == LinesAfter(a, d, r, u, dssp, |D.Iterations(Along(a, d))|)
    requires p < Across(a, d) - 2 && q < Deep(a, d) - 2
    ensures Scaled(Works(a, d, u, r, x)[p][q], Squares(a, d, u)[p][q], h)
  {
    assert Inner(a, d, p + 1, q + 1);
    LineScaled(u[p + 1][q + 1], r[p + 1][q + 1], h, dssp, x[p + 1][q + 1], Works(a, d, u, r, x)[p][q], Squares(a, d, u)[p][q]);
  }

  lemma {:induction false} GridScaled(a: array3<Vec5>, d: Axis, r: Lines5, u: Lines5, h: real -> real, dssp: real, x: Lines5)
    requires a.Length0 >= 2 && a.Length1 >= 2 && a.Length2 >= 2 && Along(a, d) >= 6 && Fits(a, d, r) && Fits(a, d, u)
    requires Multiplies(h, dssp) && x == LinesAfter(a, d, r, u, dssp, |D.Iterations(Along(a, d))|)
    ensures AllScaled(Works(a, d, u, r, x), Squares(a, d, u), h)
  {
    var f, g := Works(a, d, u, r, x), Squares(a, d, u);
    forall p | 0 <= p < |f| ensures RowsScaled(f[p], g[p], h) {
      forall q | 0 <= q < |f[p]| ensures Scaled(f[p][q], g[p][q], h) {
        InnerScaledAt(a, d, r, u, h, dssp, x, p, q);
      }
    }
  }

  /**
   The energy law on the whole grid: summed over all inner points and all components, `u` times what the
   dissipation along an axis takes from `rhs` is `dssp` times a sum of squares.
   */
  lemma {:induction false} GridEnergy(a: array3<Vec5>, d: Axis, r: Lines5, u: Lines5, dssp: real)
    requires a.Length0 >= 2 && a.Length1 >= 2 && a.Length2 >= 2 && Along(a, d) >= 6 && Fits(a, d, r) && Fits(a, d, u)
    ensures Total(Works(a, d, u, r, LinesAfter(a, d, r, u, dssp, |D.Iterations(Along(a, d))|))) == dssp * Total(Squares(a, d, u))
    ensures Total(Squares(a, d, u)) >= 0.0
  {
    var x := LinesAfter(a, d, r, u, dssp, |D.Iterations(Along(a, d))|);
    var h := Multiplier(dssp);
    var works, squares := Works(a, d, u, r, x), Squares(a, d, u);
    GridScaled(a, d, r, u, h, dssp, x);
    TotalScaled(works, squares, h, dssp);
  }
}
