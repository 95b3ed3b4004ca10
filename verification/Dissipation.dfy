/**
 The fourth-order dissipation that `compute_rhs` subtracts along every grid line, in five pieces:
 two special stencils at each end of the line and one loop in between.

 The pieces are work-shared loops without barriers between them (`nowait`), so their iterations may
 interleave in any way; see section 2.5.1 of the OpenMP 3.0 specification.
 */
module Dissipation {

  type Line = seq<real>

  datatype Piece = First | Second | Middle | NextToLast | Last

  /** A grid point of the line. Reads beyond its ends, which happen with fewer than five points, give zero here; see `InBounds`. */
  function Get(v: Line, s: int): real {
    if 0 <= s < |v| then v[s] else 0.0
  }

  /** The value one iteration of a piece subtracts (times `dssp`) at point `s`. */
  function Stencil(piece: Piece, v: Line, s: int): real {
    match piece
    case First => 5.0 * Get(v, s) - 4.0 * Get(v, s + 1) + Get(v, s + 2)
    case Second => -4.0 * Get(v, s - 1) + 6.0 * Get(v, s) - 4.0 * Get(v, s + 1) + Get(v, s + 2)
    case Middle => Get(v, s - 2) - 4.0 * Get(v, s - 1) + 6.0 * Get(v, s) - 4.0 * Get(v, s + 1) + Get(v, s + 2)
    case NextToLast => Get(v, s - 2) - 4.0 * Get(v, s - 1) + 6.0 * Get(v, s) - 4.0 * Get(v, s + 1)
    case Last => Get(v, s - 2) - 4.0 * Get(v, s - 1) + 5.0 * Get(v, s)
  }

  /** The iterations for a line of `n` points, in program order: 1, 2, 3 .. n-4, n-3, n-2. */
  function Iterations(n: int): (its: seq<(Piece, int)>) {
    [(First, 1), (Second, 2)]
    + (if n > 6 then seq(n - 6, i => (Middle, i + 3)) else [])
    + [(NextToLast, n - 3), (Last, n - 2)]
  }

  // ------------------------------------------------------------------ the operator

  /** The line with everything outside the interior `1 .. n-2` replaced by zero. */
  function Clamp(v: Line, s: int): real {
    if 1 <= s <= |v| - 2 then v[s] else 0.0
  }

  /** A row of `tridiag(-1, 2, -1)` on the interior of the line. */
  function LapAt(v: Line, s: int): real {
    2.0 * Clamp(v, s) - Clamp(v, s - 1) - Clamp(v, s + 1)
  }

  function Laplacian(v: Line): (w: Line)
    ensures |w| == |v|
  {
    seq(|v|, s => LapAt(v, s))
  }

  /** The square of that operator. */
  function Biharmonic(v: Line): (w: Line)
    ensures |w| == |v|
  {
    Laplacian(Laplacian(v))
  }

  /** The piece responsible for interior point `s`. */
  function PieceAt(n: int, s: int): Piece {
    if s == 1 then First else if s == 2 then Second
    else if s == n - 2 then Last else if s == n - 3 then NextToLast else Middle
  }

  /** With six points or more, every stencil is a row of the squared Laplacian. */
  lemma {:induction false} StencilIsBiharmonic(v: Line, s: int)
    requires |v| >= 6 && 1 <= s <= |v| - 2
    ensures Stencil(PieceAt(|v|, s), v, s) == Biharmonic(v)[s]
  {
    var w := Laplacian(v);
    assert Biharmonic(v)[s] == LapAt(w, s);
    assert Clamp(w, s) == LapAt(v, s);
    assert Clamp(w, s - 1) == if s == 1 then 0.0 else LapAt(v, s - 1);
    assert Clamp(w, s + 1) == if s == |v| - 2 then 0.0 else LapAt(v, s + 1);
  }

  /** The iterations are exactly the interior points, in order, each with its own piece. */
  lemma IterationsCover(n: int)
    requires n >= 6
    ensures |Iterations(n)| == n - 2
    ensures forall i :: 0 <= i < n - 2 ==> Iterations(n)[i] == (PieceAt(n, i + 1), i + 1)
  {
  }

  // ------------------------------------------------------------------ energy

  /** The inner product over the points `1 .. k`. */
  function Inner(a: Line, b: Line, k: nat): real
    requires k < |a| && k < |b|
  {
    if k == 0 then 0.0 else Inner(a, b, k - 1) + a[k] * b[k]
  }

  lemma ByPartsStep(x: real, y: real, z: real, p: real, q: real, r: real)
    ensures y * (2.0 * q - p - r) - (2.0 * y - x - z) * q == (z * q - y * r) - (y * p - x * q)
  {
  }

  /** The boundary term of the summation by parts. */
  function Cross(a: Line, b: Line, k: int): real {
    Clamp(a, k + 1) * Clamp(b, k) - Clamp(a, k) * Clamp(b, k + 1)
  }

  lemma {:induction false} ByPartsAt(a: Line, b: Line, k: nat)
    requires |a| == |b| && 1 <= k <= |a| - 2
    ensures a[k] * Laplacian(b)[k] - Laplacian(a)[k] * b[k] == Cross(a, b, k) - Cross(a, b, k - 1)
  {
    ByPartsStep(Clamp(a, k - 1), Clamp(a, k), Clamp(a, k + 1), Clamp(b, k - 1), Clamp(b, k), Clamp(b, k + 1));
    assert Laplacian(b)[k] == LapAt(b, k) && Laplacian(a)[k] == LapAt(a, k);
  }

  /** At point `i` the difference of the two products is that of the boundary terms at `i` and before it. */
  ghost predicate Telescopes(a: Line, la: Line, b: Line, lb: Line, cross: int -> real, i: nat)
    requires |a| == |la| == |b| == |lb| && 1 <= i < |a|
  {
    a[i] * lb[i] - la[i] * b[i] == cross(i) - cross(i - 1)
  }

  lemma {:induction false} Telescope(a: Line, la: Line, b: Line, lb: Line, cross: int -> real, k: nat)
    requires |a| == |la| == |b| == |lb| && k < |a| && cross(0) == 0.0
    requires forall i {:trigger Telescopes(a, la, b, lb, cross, i)} :: 1 <= i <= k ==> Telescopes(a, la, b, lb, cross, i)
    ensures Inner(a, lb, k) - Inner(la, b, k) == cross(k)
  {
    if k > 0 {
      Telescope(a, la, b, lb, cross, k - 1);
      assert Telescopes(a, la, b, lb, cross, k);
    }
  }

  /** Summation by parts, with the boundary term at the right end still open. */
  lemma {:induction false} ByParts(a: Line, b: Line, k: nat)
    requires |a| == |b| && k <= |a| - 2
    ensures Inner(a, Laplacian(b), k) - Inner(Laplacian(a), b, k) == Cross(a, b, k)
  {
    var la, lb, cross := Laplacian(a), Laplacian(b), i => Cross(a, b, i);
    forall i | 1 <= i <= k ensures Telescopes(a, la, b, lb, cross, i) {
      ByPartsAt(a, b, i);
    }
    Telescope(a, la, b, lb, cross, k);
  }

  /** The Laplacian is symmetric on the interior. */
  lemma {:induction false} Symmetric(a: Line, b: Line)
    requires |a| == |b| >= 2
    ensures Inner(a, Laplacian(b), |a| - 2) == Inner(Laplacian(a), b, |a| - 2)
  {
    ByParts(a, b, |a| - 2);
  }

  lemma PositiveProduct(x: real, y: real, q: real)
    requires x > 0.0 && y > 0.0 && q == x * y
    ensures q > 0.0
  {
  }

  lemma {:induction false} Square(x: real) returns (q: real)
    ensures q == x * x && q >= 0.0
    ensures q == 0.0 <==> x == 0.0
  {
    if x < 0.0 {
      q := (-x) * (-x);
      PositiveProduct(-x, -x, q);
    } else if x > 0.0 {
      q := x * x;
      PositiveProduct(x, x, q);
    } else {
      q := 0.0;
    }
  }

  lemma {:induction false} SquareSum(a: Line, k: nat)
    requires k < |a|
    ensures Inner(a, a, k) >= 0.0
    ensures Inner(a, a, k) == 0.0 <==> forall s :: 1 <= s <= k ==> a[s] == 0.0
  {
    if k > 0 {
      SquareSum(a, k - 1);
      var q := Square(a[k]);
      var sum := Inner(a, a, k - 1);
      assert Inner(a, a, k) == sum + q;
      assert sum + q == 0.0 <==> sum == 0.0 && q == 0.0;
    }
  }

  /** Where the Laplacian vanishes the line is linear ... */
  lemma {:induction false} HarmonicIsLinear(v: Line, s: nat)
    requires |v| >= 3 && s <= |v| - 1
    requires forall t :: 1 <= t <= |v| - 2 ==> LapAt(v, t) == 0.0
    ensures Clamp(v, s) == s as real * Clamp(v, 1)
  {
    if s >= 2 {
      HarmonicIsLinear(v, s - 1);
      HarmonicIsLinear(v, s - 2);
      var c, x := Clamp(v, 1), (s - 1) as real;
      assert LapAt(v, s - 1) == 0.0;
      assert s as real == x + 1.0 && (s - 2) as real == x - 1.0;
      assert 2.0 * (x * c) - (x - 1.0) * c == (x + 1.0) * c;
    } else {
      assert s as real == if s == 0 then 0.0 else 1.0;
    }
  }

  /** ... and, being zero at both ends, zero. */
  lemma {:induction false} HarmonicIsZero(v: Line, s: nat)
    requires |v| >= 3 && 1 <= s <= |v| - 2
    requires forall t :: 1 <= t <= |v| - 2 ==> LapAt(v, t) == 0.0
    ensures v[s] == 0.0
  {
    HarmonicIsLinear(v, |v| - 1);
    var c, x := Clamp(v, 1), (|v| - 1) as real;
    assert x * c == 0.0 && x > 0.0;
    assert c == 0.0;
    HarmonicIsLinear(v, s);
  }

  /**
   The dissipation never adds energy: the sum of `v * D(v)` is the sum of squares of the Laplacian,
   and it is zero only for a line that is zero throughout.
   */
  lemma {:induction false} Dissipates(v: Line)
    requires |v| >= 3
    ensures Inner(v, Biharmonic(v), |v| - 2) == Inner(Laplacian(v), Laplacian(v), |v| - 2)
    ensures Inner(v, Biharmonic(v), |v| - 2) >= 0.0
    ensures Inner(v, Biharmonic(v), |v| - 2) == 0.0 <==> forall s :: 1 <= s <= |v| - 2 ==> v[s] == 0.0
  {
    var w, k := Laplacian(v), |v| - 2;
    Symmetric(v, w);
    SquareSum(w, k);
    if Inner(w, w, k) == 0.0 {
      assert forall t :: 1 <= t <= k ==> w[t] == LapAt(v, t);
      forall s | 1 <= s <= k ensures v[s] == 0.0 {
        HarmonicIsZero(v, s);
      }
    }
    if forall s :: 1 <= s <= k ==> v[s] == 0.0 {
      forall s | 1 <= s <= k ensures w[s] == 0.0 {
        assert w[s] == LapAt(v, s);
      }
    }
  }

  // ------------------------------------------------------------------ interleavings

  /** A cell of the grid: point `s` of line number `line`. */
  type Cell = (int, nat)

  /** One iteration of one piece on one line; `item` numbers the iterations of a line. */
  datatype Task = Task(item: nat, line: nat)

  /** All lines have `n` points; there may be any number of lines. */
  datatype Sweep = Sweep(n: int, dssp: real, u: seq<Line>) {

    predicate Valid() {
      n >= 3 && forall l :: 0 <= l < |u| ==> |u[l]| == n
    }

    predicate Has(t: Task) {
      t.item < |Iterations(n)| && t.line < |u|
    }

    function Target(t: Task): Cell
      requires Has(t)
    {
      (Iterations(n)[t.item].1, t.line)
    }

    /** What the task subtracts; `u` is only read. */
    function Amount(t: Task): real
      requires Has(t)
    {
      dssp * Stencil(Iterations(n)[t.item].0, u[t.line], Iterations(n)[t.item].1)
    }
  }

  /** An iteration loads its cell of `rhs` and later stores the result; anything may come in between. */
  datatype Event = Load(t: Task) | Store(t: Task)

  datatype State = State(rhs: Cell -> real, loaded: map<Task, real>, done: set<Task>)

  predicate Enabled(w: Sweep, st: State, e: Event) {
    match e
    case Load(t) => w.Has(t) && t !in st.loaded && t !in st.done
    case Store(t) => w.Has(t) && t in st.loaded
  }

  function Apply(w: Sweep, st: State, e: Event): State
    requires Enabled(w, st, e)
  {
    match e
    case Load(t) => st.(loaded := st.loaded[t := st.rhs(w.Target(t))])
    case Store(t) =>
      var value := st.loaded[t] - w.Amount(t);
      State(c => if c == w.Target(t) then value else st.rhs(c), st.loaded - {t}, st.done + {t})
  }

  /** `run` is a possible execution from `st` that ends in `st'`. */
  ghost predicate Executes(w: Sweep, st: State, run: seq<Event>, st': State)
    decreases |run|
  {
    if run == [] then st == st'
    else Enabled(w, st, run[0]) && Executes(w, Apply(w, st, run[0]), run[1..], st')
  }

  function Initial(rhs: Cell -> real): State {
    State(rhs, map[], {})
  }

  ghost predicate Finished(w: Sweep, st: State) {
    st.loaded == map[] && forall t: Task :: w.Has(t) ==> t in st.done
  }

  /** The result that the sequential program promises. */
  function Expected(w: Sweep, rhs: Cell -> real, c: Cell): real
    requires w.Valid()
  {
    if c.1 < |w.u| && 1 <= c.0 <= w.n - 2 then rhs(c) - w.dssp * Biharmonic(w.u[c.1])[c.0] else rhs(c)
  }

  ghost predicate TaskProgress(w: Sweep, rhs: Cell -> real, st: State, t: Task)
    requires w.Valid() && w.Has(t)
  {
    st.rhs(w.Target(t)) == if t in st.done then rhs(w.Target(t)) - w.Amount(t) else rhs(w.Target(t))
  }

  /** In the middle of a run: a cell has its final value if its task is done, and its first value otherwise. */
  ghost predicate Progress(w: Sweep, rhs: Cell -> real, st: State)
    requires w.Valid()
  {
    && (forall t :: t in st.loaded ==> w.Has(t) && t !in st.done && st.loaded[t] == rhs(w.Target(t)))
    && (forall t :: t in st.done ==> w.Has(t))
    && (forall t: Task {:trigger TaskProgress(w, rhs, st, t)} :: w.Has(t) ==> TaskProgress(w, rhs, st, t))
    && (forall c: Cell :: !(c.1 < |w.u| && 1 <= c.0 <= w.n - 2) ==> st.rhs(c) == rhs(c))
  }

  /** With six points or more no two tasks share a cell. */
  lemma {:induction false} Disjoint(w: Sweep, t: Task, t': Task)
    requires w.Valid() && w.n >= 6 && w.Has(t) && w.Has(t')
    ensures w.Target(t) == w.Target(t') <==> t == t'
    ensures 1 <= w.Target(t).0 <= w.n - 2
  {
    IterationsCover(w.n);
    assert Iterations(w.n)[t.item].1 == t.item + 1;
    assert Iterations(w.n)[t'.item].1 == t'.item + 1;
  }

  lemma {:induction false} ProgressKept(w: Sweep, rhs: Cell -> real, st: State, e: Event)
    requires w.Valid() && w.n >= 6 && Progress(w, rhs, st) && Enabled(w, st, e)
    ensures Progress(w, rhs, Apply(w, st, e))
  {
    var next := Apply(w, st, e);
    assert TaskProgress(w, rhs, st, e.t);
    forall t | w.Has(t) ensures TaskProgress(w, rhs, next, t) {
      assert TaskProgress(w, rhs, st, t);
      Disjoint(w, t, e.t);
    }
    forall c: Cell | !(c.1 < |w.u| && 1 <= c.0 <= w.n - 2) ensures next.rhs(c) == rhs(c) {
      Disjoint(w, e.t, e.t);
    }
  }

  lemma {:induction false} RunKeepsProgress(w: Sweep, rhs: Cell -> real, st: State, run: seq<Event>, st': State)
    requires w.Valid() && w.n >= 6 && Progress(w, rhs, st) && Executes(w, st, run, st')
    ensures Progress(w, rhs, st')
    decreases |run|
  {
    if run != [] {
      ProgressKept(w, rhs, st, run[0]);
      RunKeepsProgress(w, rhs, Apply(w, st, run[0]), run[1..], st');
    }
  }

  /** Every interleaving of the five loops gives the squared Laplacian on every line. */
  lemma {:induction false} AnyInterleaving(w: Sweep, rhs: Cell -> real, run: seq<Event>, st: State, c: Cell)
    requires w.Valid() && w.n >= 6
    requires Executes(w, Initial(rhs), run, st) && Finished(w, st)
    ensures st.rhs(c) == Expected(w, rhs, c)
  {
    RunKeepsProgress(w, rhs, Initial(rhs), run, st);
    FinishedCell(w, rhs, st, c);
  }

  /** The task of an interior cell, and what it subtracts. */
  lemma {:induction false} TaskOf(w: Sweep, c: Cell, x: real, amount: real) returns (t: Task)
    requires w.Valid() && w.n >= 6 && c.1 < |w.u| && 1 <= c.0 <= w.n - 2 && x == Biharmonic(w.u[c.1])[c.0] && amount == w.dssp * x
    ensures w.Has(t) && w.Target(t) == c && w.Amount(t) == amount
  {
    t := Task(c.0 - 1, c.1);
    IterationsCover(w.n);
    var (piece, i) := Iterations(w.n)[t.item];
    CellStencil(w.u[c.1], c.0, piece, i);
    Scaling(w.dssp, Stencil(piece, w.u[c.1], i), x);
  }

  lemma Scaling(a: real, x: real, y: real)
    requires x == y
    ensures a * x == a * y
  {
  }

  lemma {:induction false} CellStencil(v: Line, i: int, piece: Piece, j: int)
    requires |v| >= 6 && 1 <= i <= |v| - 2 && (piece, j) == Iterations(|v|)[i - 1]
    ensures j == i && Stencil(piece, v, j) == Biharmonic(v)[i]
  {
    IterationsCover(|v|);
    StencilIsBiharmonic(v, i);
  }

  lemma {:induction false} DoneCell(w: Sweep, rhs: Cell -> real, st: State, t: Task, amount: real)
    requires w.Valid() && Progress(w, rhs, st) && t in st.done && w.Has(t) && amount == w.Amount(t)
    ensures st.rhs(w.Target(t)) == rhs(w.Target(t)) - amount
  {
    assert TaskProgress(w, rhs, st, t);
  }

  lemma {:induction false} InteriorCell(w: Sweep, rhs: Cell -> real, st: State, c: Cell, x: real, amount: real)
    requires w.Valid() && w.n >= 6 && Progress(w, rhs, st) && Finished(w, st)
    requires c.1 < |w.u| && 1 <= c.0 <= w.n - 2 && x == Biharmonic(w.u[c.1])[c.0] && amount == w.dssp * x
    ensures st.rhs(c) == rhs(c) - amount
  {
    var t := TaskOf(w, c, x, amount);
    DoneCell(w, rhs, st, t, amount);
  }

  lemma {:induction false} FinishedCell(w: Sweep, rhs: Cell -> real, st: State, c: Cell)
    requires w.Valid() && w.n >= 6 && Progress(w, rhs, st) && Finished(w, st)
    ensures st.rhs(c) == Expected(w, rhs, c)
  {
    if c.1 < |w.u| && 1 <= c.0 <= w.n - 2 {
      var x := Biharmonic(w.u[c.1])[c.0];
      InteriorCell(w, rhs, st, c, x, w.dssp * x);
    }
  }

  /** The line that is one at point `s` and zero elsewhere. */
  function Spike(n: nat, s: int): (v: Line)
    ensures |v| == n
  {
    seq(n, i => if i == s then 1.0 else 0.0)
  }

  /** The second and the fourth loop meet at point 2 of a line of five points. */
  lemma {:induction false} FivePoints()
    ensures |Iterations(5)| == 4
    ensures forall k :: 0 <= k < 4 ==> (Iterations(5)[k].1 == 2 <==> k == 1 || k == 2)
    ensures Stencil(Iterations(5)[1].0, Spike(5, 2), 2) + Stencil(Iterations(5)[2].0, Spike(5, 2), 2) != Biharmonic(Spike(5, 2))[2]
  {
    var v := Spike(5, 2);
    var w := Laplacian(v);
    assert Biharmonic(v)[2] == LapAt(w, 2);
    assert Clamp(w, 2) == LapAt(v, 2) == 2.0;
    assert Clamp(w, 1) == -1.0 && Clamp(w, 3) == -1.0;
  }

  /** A task that loads and stores without being disturbed. */
  function After(w: Sweep, st: State, t: Task): State
    requires Enabled(w, st, Load(t))
  {
    Apply(w, Apply(w, st, Load(t)), Store(t))
  }

  lemma {:induction false} Undisturbed(w: Sweep, st: State, run: seq<Event>, st': State, t: Task)
    requires Executes(w, st, run, st') && Enabled(w, st', Load(t))
    ensures Executes(w, st, run + [Load(t), Store(t)], After(w, st', t))
    decreases |run|
  {
    var pair := [Load(t), Store(t)];
    if run == [] {
      assert run + pair == pair && pair[1..] == [Store(t)];
      assert Executes(w, Apply(w, st', Load(t)), [Store(t)], After(w, st', t));
    } else {
      Undisturbed(w, Apply(w, st, run[0]), run[1..], st', t);
      assert (run + pair)[1..] == run[1..] + pair;
    }
  }

  /** What the first `k` iterations subtract from a cell of the first line. */
  function Subtotal(w: Sweep, c: Cell, k: nat): real
    requires k <= |Iterations(w.n)| && |w.u| >= 1
  {
    if k == 0 then 0.0
    else Subtotal(w, c, k - 1) + if w.Target(Task(k - 1, 0)) == c then w.Amount(Task(k - 1, 0)) else 0.0
  }

  /** The iterations on the first line in program order. */
  lemma {:induction false} ProgramOrder(w: Sweep, rhs: Cell -> real, k: nat, c: Cell) returns (run: seq<Event>, st: State)
    requires k <= |Iterations(w.n)| && |w.u| >= 1
    ensures Executes(w, Initial(rhs), run, st) && st.loaded == map[]
    ensures forall t: Task :: t in st.done <==> t.line == 0 && t.item < k
    ensures st.rhs(c) == rhs(c) - Subtotal(w, c, k)
  {
    if k == 0 {
      run, st := [], Initial(rhs);
    } else {
      run, st := ProgramOrder(w, rhs, k - 1, c);
      var t := Task(k - 1, 0);
      Undisturbed(w, Initial(rhs), run, st, t);
      run := run + [Load(t), Store(t)];
      assert After(w, st, t).loaded == map[];
      st := After(w, st, t);
    }
  }

  /** Every complete run on lines of `n` points ends with the promised result. */
  ghost predicate Deterministic(n: int) {
    forall w: Sweep, rhs: Cell -> real, run: seq<Event>, st: State, c: Cell ::
      w.Valid() && w.n == n && Executes(w, Initial(rhs), run, st) && Finished(w, st)
      ==> st.rhs(c) == Expected(w, rhs, c)
  }

  /** With five points two of the loops update the same cell, and already the run in program order subtracts the wrong amount there. */
  lemma {:induction false} FivePointsFail()
    ensures !Deterministic(5)
  {
    FivePoints();
    var w, zero := Sweep(5, 1.0, [Spike(5, 2)]), (c: Cell) => 0.0;
    var c: Cell := (2, 0);
    var run, st := ProgramOrder(w, zero, 4, c);
    assert Finished(w, st);
    assert Subtotal(w, c, 1) == 0.0;
    assert Subtotal(w, c, 2) == w.Amount(Task(1, 0));
    assert Subtotal(w, c, 3) == w.Amount(Task(1, 0)) + w.Amount(Task(2, 0));
    assert Subtotal(w, c, 4) == Subtotal(w, c, 3);
    assert st.rhs(c) != Expected(w, zero, c);
  }

  /** All points that one iteration of a piece reads are on the line. */
  predicate ReadsWithin(piece: Piece, s: int, n: int) {
    match piece
    case First => 0 <= s && s + 2 < n
    case Second => 0 <= s - 1 && s + 2 < n
    case Middle => 0 <= s - 2 && s + 2 < n
    case NextToLast => 0 <= s - 2 && s + 1 < n
    case Last => 0 <= s - 2 && s < n
  }

  /** No iteration reads outside the array. */
  ghost predicate InBounds(n: int) {
    forall i :: 0 <= i < |Iterations(n)| ==> ReadsWithin(Iterations(n)[i].0, Iterations(n)[i].1, n)
  }

  lemma {:induction false} FivePointsNeeded(n: int)
    requires n >= 3
    ensures InBounds(n) <==> n >= 5
  {
    if n >= 6 {
      IterationsCover(n);
    } else {
      var its := Iterations(n);
      assert its[0] == (First, 1) && its[1] == (Second, 2) && its[2] == (NextToLast, n - 3) && its[3] == (Last, n - 2);
    }
  }

  /** Six points is exactly what the five pieces need: fewer than five are not even enough for the reads. */
  lemma {:induction false} ExactlySix(n: int)
    requires n >= 3
    ensures InBounds(n) && Deterministic(n) <==> n >= 6
  {
    FivePointsNeeded(n);
    if n >= 6 {
      forall w: Sweep, rhs: Cell -> real, run: seq<Event>, st: State, c: Cell |
        w.Valid() && w.n == n && Executes(w, Initial(rhs), run, st) && Finished(w, st)
        ensures st.rhs(c) == Expected(w, rhs, c)
      {
        AnyInterleaving(w, rhs, run, st, c);
      }
    } else if n == 5 {
      FivePointsFail();
    }
  }
}
