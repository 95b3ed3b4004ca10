/**
 The BT program as a whole: set up, then any number of `adi` steps.
 */
module BTRun {
  import opened LinAlg
  import opened BTSweep
  import opened BTAdi
  import opened BTDissipation
  import opened BTLoops
  import opened BTSteps

  /** The coordinate of grid point `i` of `n`: `(double)i * dnxm1`, where `dnxm1` is `1 / (n - 1)`. */
  function Coordinate(n: nat, i: int): real
    requires n >= 2
  {
    i as real * (1.0 / (n - 1) as real)
  }

  /** The first point is at 0 and the last at 1. */
  lemma {:induction false} EndPoints(n: nat)
    requires n >= 2
    ensures Coordinate(n, 0) == 0.0 && Coordinate(n, n - 1) == 1.0
  {
    var x := (n - 1) as real;
    assert x * (1.0 / x) == 1.0;
    var zero := 0;
    assert zero as real * (1.0 / x) == 0.0;
  }

  /** In between the points are evenly spaced. */
  lemma {:induction false} EvenlySpaced(n: nat, i: int)
    requires n >= 2
    ensures Coordinate(n, i + 1) - Coordinate(n, i) == 1.0 / (n - 1) as real
  {
    var x, step := i as real, 1.0 / (n - 1) as real;
    assert (i + 1) as real == x + 1.0;
    assert (x + 1.0) * step == x * step + step;
  }

  /** How the fluxes and the blocks of a step depend on the flow, given as `u[j][k][i]`. */
  type Flow = Grid -> Physics

  /** The static arrays and constants of the program. */
  class Solver {
    const u: array3<Vec5>
    const rhs: array3<Vec5>
    const forcing: array3<Vec5>
    const lhs: array3<Block5>
    const exact: (real, real, real) -> Vec5
    const dt: real
    const dssp: real

    constructor (nx: nat, ny: nat, nz: nat, exactSolution: (real, real, real) -> Vec5, dt: real, dssp: real)
      requires nx >= 5 && ny >= 5 && nz >= 5
      ensures Valid() && fresh(u) && fresh(rhs) && fresh(forcing) && fresh(lhs)
      ensures u.Length0 == nx && u.Length1 == ny && u.Length2 == nz && exact == exactSolution && this.dt == dt && this.dssp == dssp
    {
      this.dt, this.dssp := dt, dssp;
      u := new Vec5[nx, ny, nz];
      rhs := new Vec5[nx, ny, nz];
      forcing := new Vec5[nx, ny, nz];
      lhs := new Block5[nx, ny, nz];
      exact := exactSolution;
    }

    ghost predicate Valid() {
      && SameGrid(lhs, rhs) && SameGrid(lhs, forcing) && SameGrid(lhs, u)
      && u.Length0 >= 5 && u.Length1 >= 5 && u.Length2 >= 5
      && u != rhs && u != forcing && rhs != forcing
    }

    /** Six points or more along every axis. */
    predicate Large() {
      u.Length0 >= 6 && u.Length1 >= 6 && u.Length2 >= 6
    }

    /** The exact solution at a grid point. */
    function ExactAt(i: int, j: int, k: int): Vec5
      requires u.Length0 >= 2 && u.Length1 >= 2 && u.Length2 >= 2
    {
      exact(Coordinate(u.Length0, i), Coordinate(u.Length1, j), Coordinate(u.Length2, k))
    }

    /** `u` carries the exact solution on all six faces. */
    ghost predicate ExactFaces()
      requires Valid()
      reads u
    {
      forall i, j, k :: Within(u, i, j, k) && !Interior(u, i, j, k) ==> u[i, j, k] == ExactAt(i, j, k)
    }

    /** What every step finds and leaves. */
    ghost predicate Ready()
      requires Valid()
      reads u, lhs, forcing
    {
      ExactFaces() && BoundaryBlocks(lhs, X) && BoundaryZero(forcing, X)
    }

    /** `lhsinit`. */
    method LhsInit()
      requires Valid()
      modifies lhs
      ensures BoundaryBlocks(lhs, X)
    {
      Fill(lhs, (i, j, k) => BOUNDARY);
    }

    /** A line of the exact solution. */
    function ExactLine(d: Axis, p: int, q: int): seq<Vec5>
      requires u.Length0 >= 2 && u.Length1 >= 2 && u.Length2 >= 2
    {
      seq(Along(u, d), s => ExactAlong(d, s, p, q))
    }

    /** The forcing is zero on the boundary, and inside the negative of fluxes less dissipation of the exact solution. */
    ghost predicate Forced(force: Flux)
      requires Valid()
      reads forcing
    {
      && (forall i, j, k :: Within(forcing, i, j, k) && !Interior(forcing, i, j, k) ==> forcing[i, j, k] == ZERO5)
      && (forall i, j, k :: Within(forcing, i, j, k) && Interior(forcing, i, j, k) ==>
            Combined(-1.0, dssp, forcing[i, j, k], ZERO5, force, ExactLine(X, j, k), ExactLine(Y, i, k), ExactLine(Z, i, j), i, j, k))
    }

    /** `exact_rhs`: zero, the terms of the exact solution along the three axes, and a change of sign. */
    method ExactRhs(force: Flux)
      requires Valid()
      modifies forcing
      ensures Forced(force) && BoundaryZero(forcing, X)
      ensures Large() ==> forall i, j, k :: Within(forcing, i, j, k) && Interior(forcing, i, j, k) ==>
                forcing[i, j, k] == Scale(-1.0, Sub(Add(ZERO5, Add(Add(force(X, i, j, k), force(Y, i, j, k)), force(Z, i, j, k))),
                                             Scale(dssp, Add(Add(Rates(ExactLine(X, j, k), i), Rates(ExactLine(Y, i, k), j)), Rates(ExactLine(Z, i, j), k)))))
    {
      var a := forcing;
      Fill(a, (i, j, k) => ZERO5);
      AddExactTerms(force);
      ghost var before := Lines(forcing, X);
      UpdateInterior(a, (i: int, j: int, k: int, x: Vec5) => Scale(-1.0, x));
      forall i, j, k | Within(forcing, i, j, k) && Interior(forcing, i, j, k)
        ensures Combined(-1.0, dssp, forcing[i, j, k], ZERO5, force, ExactLine(X, j, k), ExactLine(Y, i, k), ExactLine(Z, i, j), i, j, k)
      {
        assert In(forcing, X, i, j, k);
        SumsScaled(-1.0, before[j][k][i], ZERO5, Fluxes(force, i, j, k),
                   Drained(dssp, ExactLine(X, j, k), ExactLine(Y, i, k), ExactLine(Z, i, j), i, j, k));
      }
      ForcedBoundary(force);
      ForcingFormula(force);
    }

    /** The terms of the exact solution, from a copy of it on the grid. */
    method AddExactTerms(force: Flux)
      requires Valid() && forall i, j, k :: Within(forcing, i, j, k) ==> forcing[i, j, k] == ZERO5
      modifies forcing
      ensures forall i, j, k :: Within(forcing, i, j, k) && !Interior(forcing, i, j, k) ==> forcing[i, j, k] == ZERO5
      ensures forall i, j, k :: Within(forcing, i, j, k) && Interior(forcing, i, j, k) ==>
                Combined(1.0, dssp, forcing[i, j, k], ZERO5, force, ExactLine(X, j, k), ExactLine(Y, i, k), ExactLine(Z, i, j), i, j, k)
    {
      var ue := new Vec5[u.Length0, u.Length1, u.Length2];
      Fill(ue, (i, j, k) => ExactAt(i, j, k));
      AddAxes(forcing, ue, dssp, force);
      forall i, j, k | Within(forcing, i, j, k) && Interior(forcing, i, j, k)
        ensures LineAt(ue, X, j, k) == ExactLine(X, j, k) && LineAt(ue, Y, i, k) == ExactLine(Y, i, k) && LineAt(ue, Z, i, j) == ExactLine(Z, i, j)
      {
        ExactLines(ue, i, j, k);
      }
    }

    /** Where a grid carries the exact solution, so do its lines. */
    lemma ExactLines(v: array3<Vec5>, i: int, j: int, k: int)
      requires Valid() && SameShape(u, v) && Within(v, i, j, k)
      requires forall i, j, k :: Within(v, i, j, k) ==> v[i, j, k] == ExactAt(i, j, k)
      ensures LineAt(v, X, j, k) == ExactLine(X, j, k) && LineAt(v, Y, i, k) == ExactLine(Y, i, k) && LineAt(v, Z, i, j) == ExactLine(Z, i, j)
    {
    }

    /** The forcing, component by component. */
    lemma {:induction false} ForcingFormula(force: Flux)
      requires Valid() && Forced(force)
      ensures Large() ==> forall i, j, k :: Within(forcing, i, j, k) && Interior(forcing, i, j, k) ==>
                forcing[i, j, k] == Scale(-1.0, Sub(Add(ZERO5, Add(Add(force(X, i, j, k), force(Y, i, j, k)), force(Z, i, j, k))),
                                             Scale(dssp, Add(Add(Rates(ExactLine(X, j, k), i), Rates(ExactLine(Y, i, k), j)), Rates(ExactLine(Z, i, j), k)))))
    {
      if Large() {
        forall i, j, k | Within(forcing, i, j, k) && Interior(forcing, i, j, k)
          ensures forcing[i, j, k] == Scale(-1.0, Sub(Add(ZERO5, Add(Add(force(X, i, j, k), force(Y, i, j, k)), force(Z, i, j, k))),
                                               Scale(dssp, Add(Add(Rates(ExactLine(X, j, k), i), Rates(ExactLine(Y, i, k), j)), Rates(ExactLine(Z, i, j), k)))))
        {
          CombinedVector(-1.0, dssp, forcing[i, j, k], ZERO5, force, ExactLine(X, j, k), ExactLine(Y, i, k), ExactLine(Z, i, j), i, j, k);
        }
      }
    }

    lemma {:induction false} ForcedBoundary(force: Flux)
      requires Valid() && Forced(force)
      ensures BoundaryZero(forcing, X)
    {
      forall s, p, q | In(forcing, X, s, p, q) && OnFace(forcing, X, s, p, q) ensures At(forcing, X, s, p, q) == ZERO5 {
        assert Within(forcing, s, p, q) && At(forcing, X, s, p, q) == forcing[s, p, q];
      }
    }

    /** `r` is the right-hand side that a step computes from the flow `g`. */
    ghost predicate IsRhs(f: Physics, g: Grid, r: Grid)
      requires Valid() && Fits(rhs, X, g) && Fits(rhs, X, r)
      reads forcing
    {
      && ZeroEdge(rhs, r)
      && forall i, j, k :: Within(rhs, i, j, k) && Interior(rhs, i, j, k) ==>
           Combined(dt, dssp, r[j][k][i], forcing[i, j, k], f.flux,
                    LineOf(rhs, g, X, j, k), LineOf(rhs, g, Y, i, k), LineOf(rhs, g, Z, i, j), i, j, k)
    }

    /** `g'` is `g` with `r` added in the interior. */
    ghost predicate Updated(g: Grid, r: Grid, g': Grid)
      requires Valid() && Fits(rhs, X, g) && Fits(rhs, X, r) && Fits(rhs, X, g')
    {
      forall i, j, k :: Within(rhs, i, j, k) ==>
        g'[j][k][i] == if Interior(rhs, i, j, k) then Add(g[j][k][i], r[j][k][i]) else g[j][k][i]
    }

    /**
     One step from `g` to `g'`: `r0` is the right-hand side for `g`; `r1`, `r2` and `r3` solve in turn the x, y
     and z systems; `r3` is what is added.
     */
    ghost predicate StepOf(f: Physics, g: Grid, g': Grid, r0: Grid, r1: Grid, r2: Grid, r3: Grid)
      requires Valid()
      reads forcing
    {
      && Fits(rhs, X, g) && Fits(rhs, X, g') && Fits(rhs, X, r0) && Fits(rhs, X, r1) && Fits(rhs, X, r2) && Fits(rhs, X, r3)
      && IsRhs(f, g, r0)
      && Solves(f, rhs, X, r0, r1) && Solves(f, rhs, Y, r1, r2) && Solves(f, rhs, Z, r2, r3)
      && ZeroEdge(rhs, r1) && ZeroEdge(rhs, r2) && ZeroEdge(rhs, r3)
      && Updated(g, r3, g')
    }

    ghost predicate AdvancesTo(f: Physics, g: Grid, g': Grid)
      requires Valid()
      reads forcing
    {
      exists r0, r1, r2, r3 :: StepOf(f, g, g', r0, r1, r2, r3)
    }

    /** A right-hand side is determined by the flow. */
    lemma {:induction false} RhsUnique(f: Physics, g: Grid, r: Grid, r': Grid)
      requires Valid() && Fits(rhs, X, g) && Fits(rhs, X, r) && Fits(rhs, X, r') && IsRhs(f, g, r) && IsRhs(f, g, r')
      ensures r == r'
    {
      forall i, j, k | Within(rhs, i, j, k) ensures r[j][k][i] == r'[j][k][i] {
        if Interior(rhs, i, j, k) {
          SumsUnique(dt, r[j][k][i], r'[j][k][i], forcing[i, j, k], Fluxes(f.flux, i, j, k),
                     Drained(dssp, LineOf(rhs, g, X, j, k), LineOf(rhs, g, Y, i, k), LineOf(rhs, g, Z, i, j), i, j, k));
        }
      }
      SameGrids(rhs, r, r');
    }

    /** Without zero pivots a grid has only one successor. */
    lemma {:induction false} AdvancesUnique(f: Physics, g: Grid, g1: Grid, g2: Grid)
      requires Valid() && StepPivots(f, lhs) && AdvancesTo(f, g, g1) && AdvancesTo(f, g, g2)
      ensures g1 == g2
    {
      var r0, r1, r2, r3 :| StepOf(f, g, g1, r0, r1, r2, r3);
      var s0, s1, s2, s3 :| StepOf(f, g, g2, s0, s1, s2, s3);
      RhsUnique(f, g, r0, s0);
      ThroughoutUnique(f, rhs, lhs, r0, r1, r2, r3, s1, s2, s3);
      SameGrids(rhs, g1, g2);
    }

    /** `gs` are the grids of successive steps, none of which meets a zero pivot. */
    ghost predicate Trace(flow: Flow, gs: seq<Grid>)
      requires Valid()
      reads forcing
    {
      gs != [] && forall n {:trigger StepAt(flow, gs, n)} :: 0 <= n < |gs| - 1 ==> StepAt(flow, gs, n)
    }

    ghost predicate StepAt(flow: Flow, gs: seq<Grid>, n: nat)
      requires Valid() && n < |gs| - 1
      reads forcing
    {
      StepPivots(flow(gs[n]), lhs) && AdvancesTo(flow(gs[n]), gs[n], gs[n + 1])
    }

    /** The first grid and the number of steps determine them all. */
    lemma {:induction false} TraceUnique(flow: Flow, gs: seq<Grid>, hs: seq<Grid>, n: nat)
      requires Valid() && Trace(flow, gs) && Trace(flow, hs) && gs[0] == hs[0] && n < |gs| && n < |hs|
      ensures gs[n] == hs[n]
    {
      if n > 0 {
        TraceUnique(flow, gs, hs, n - 1);
        assert StepAt(flow, gs, n - 1) && StepAt(flow, hs, n - 1);
        AdvancesUnique(flow(gs[n - 1]), gs[n - 1], gs[n], hs[n]);
      }
    }

    lemma {:induction false} TraceExtends(flow: Flow, gs: seq<Grid>, g: Grid)
      requires Valid() && Trace(flow, gs) && StepPivots(flow(gs[|gs| - 1]), lhs) && AdvancesTo(flow(gs[|gs| - 1]), gs[|gs| - 1], g)
      ensures Trace(flow, gs + [g])
    {
      var hs := gs + [g];
      forall n | 0 <= n < |hs| - 1 ensures StepAt(flow, hs, n) {
        if n < |gs| - 1 {
          assert StepAt(flow, gs, n);
        }
      }
    }

    /** `u` is the exact solution on the whole grid. */
    ghost predicate Exact()
      requires Valid()
      reads u
    {
      forall i, j, k :: Within(u, i, j, k) ==> u[i, j, k] == ExactAt(i, j, k)
    }

    lemma {:induction false} ExactLineOf(i: int, j: int, k: int)
      requires Valid() && Within(rhs, i, j, k) && Fits(rhs, X, ExactGrid())
      ensures LineOf(rhs, ExactGrid(), X, j, k) == ExactLine(X, j, k)
      ensures LineOf(rhs, ExactGrid(), Y, i, k) == ExactLine(Y, i, k)
      ensures LineOf(rhs, ExactGrid(), Z, i, j) == ExactLine(Z, i, j)
    {
    }

    /** At the exact solution the fluxes, the dissipation and the forcing of a step cancel. */
    lemma {:induction false} ExactBalance(f: Physics, r: Grid)
      requires Valid() && Forced(f.flux) && Fits(rhs, X, ExactGrid()) && Fits(rhs, X, r) && IsRhs(f, ExactGrid(), r)
      ensures ZeroGrid(rhs, r)
    {
      forall i, j, k | Within(rhs, i, j, k) ensures r[j][k][i] == ZERO5 {
        if Interior(rhs, i, j, k) {
          ExactLineOf(i, j, k);
          assert Within(forcing, i, j, k) && Interior(forcing, i, j, k);
          SumsBalance(dt, r[j][k][i], forcing[i, j, k], Fluxes(f.flux, i, j, k),
                      Drained(dssp, ExactLine(X, j, k), ExactLine(Y, i, k), ExactLine(Z, i, j), i, j, k));
        }
      }
    }

    /** The exact solution is its own successor. */
    lemma {:induction false} ExactStays(f: Physics, g: Grid)
      requires Valid() && Forced(f.flux) && StepPivots(f, lhs) && AdvancesTo(f, ExactGrid(), g)
      ensures g == ExactGrid()
    {
      var e := ExactGrid();
      var r0, r1, r2, r3 :| StepOf(f, e, g, r0, r1, r2, r3);
      ExactBalance(f, r0);
      ZeroThroughout(f, rhs, lhs, r0, r1, r2, r3);
      forall i, j, k | Within(rhs, i, j, k) ensures g[j][k][i] == e[j][k][i] {
        AddZero(e[j][k][i]);
      }
      SameGrids(rhs, g, e);
    }

    /** The first loops of `compute_rhs`. */
    method CopyForcing()
      requires Valid()
      modifies rhs
      ensures forall i, j, k :: Within(rhs, i, j, k) ==> rhs[i, j, k] == forcing[i, j, k]
    {
      for i := 0 to rhs.Length0
        invariant forall i', j', k' :: Within(rhs, i', j', k') && Reached(i', j', k', i, 0, 0) ==> rhs[i', j', k'] == forcing[i', j', k']
      {
        for j := 0 to rhs.Length1
          invariant forall i', j', k' :: Within(rhs, i', j', k') && Reached(i', j', k', i, j, 0) ==> rhs[i', j', k'] == forcing[i', j', k']
        {
          for k := 0 to rhs.Length2
            invariant forall i', j', k' :: Within(rhs, i', j', k') && Reached(i', j', k', i, j, k) ==> rhs[i', j', k'] == forcing[i', j', k']
          {
            rhs[i, j, k] := forcing[i, j, k];
          }
        }
      }
    }

    /** `compute_rhs`: the forcing everywhere, then fluxes and dissipation along the three axes, and the factor `dt`. */
    method ComputeRhs(f: Physics)
      requires Valid()
      modifies rhs
      ensures forall i, j, k :: Within(rhs, i, j, k) && !Interior(rhs, i, j, k) ==> rhs[i, j, k] == forcing[i, j, k]
      ensures forall i, j, k :: Within(rhs, i, j, k) && Interior(rhs, i, j, k) ==>
                Combined(dt, dssp, rhs[i, j, k], forcing[i, j, k], f.flux, LineAt(u, X, j, k), LineAt(u, Y, i, k), LineAt(u, Z, i, j), i, j, k)
      ensures Large() ==> forall i, j, k :: Within(rhs, i, j, k) && Interior(rhs, i, j, k) ==>
                rhs[i, j, k] == Scale(dt, Sub(Add(forcing[i, j, k], Add(Add(f.flux(X, i, j, k), f.flux(Y, i, j, k)), f.flux(Z, i, j, k))),
                                             Scale(dssp, Add(Add(Rates(LineAt(u, X, j, k), i), Rates(LineAt(u, Y, i, k), j)), Rates(LineAt(u, Z, i, j), k)))))
    {
      CombineRhs(f);
      RhsFormula(f);
    }

    /** The loops of `compute_rhs`: the forcing everywhere, then fluxes and dissipation along the three axes, and the factor `dt`. */
    method CombineRhs(f: Physics)
      requires Valid()
      modifies rhs
      ensures forall i, j, k :: Within(rhs, i, j, k) && !Interior(rhs, i, j, k) ==> rhs[i, j, k] == forcing[i, j, k]
      ensures forall i, j, k :: Within(rhs, i, j, k) && Interior(rhs, i, j, k) ==>
                Combined(dt, dssp, rhs[i, j, k], forcing[i, j, k], f.flux, LineAt(u, X, j, k), LineAt(u, Y, i, k), LineAt(u, Z, i, j), i, j, k)
    {
      CopyForcing();
      AddAxes(rhs, u, dssp, f.flux);
      ghost var before := Lines(rhs, X);
      var t := dt;
      UpdateInterior(rhs, (i: int, j: int, k: int, x: Vec5) => Scale(t, x));
      forall i, j, k | Within(rhs, i, j, k) && Interior(rhs, i, j, k)
        ensures Combined(dt, dssp, rhs[i, j, k], forcing[i, j, k], f.flux, LineAt(u, X, j, k), LineAt(u, Y, i, k), LineAt(u, Z, i, j), i, j, k)
      {
        assert In(rhs, X, i, j, k);
        SumsScaled(t, before[j][k][i], forcing[i, j, k], Fluxes(f.flux, i, j, k),
                   Drained(dssp, LineAt(u, X, j, k), LineAt(u, Y, i, k), LineAt(u, Z, i, j), i, j, k));
      }
    }

    /** The right-hand side, component by component. */
    lemma {:induction false} RhsFormula(f: Physics)
      requires Valid()
      requires forall i, j, k :: Within(rhs, i, j, k) && Interior(rhs, i, j, k) ==>
                 Combined(dt, dssp, rhs[i, j, k], forcing[i, j, k], f.flux, LineAt(u, X, j, k), LineAt(u, Y, i, k), LineAt(u, Z, i, j), i, j, k)
      ensures Large() ==> forall i, j, k :: Within(rhs, i, j, k) && Interior(rhs, i, j, k) ==>
                rhs[i, j, k] == Scale(dt, Sub(Add(forcing[i, j, k], Add(Add(f.flux(X, i, j, k), f.flux(Y, i, j, k)), f.flux(Z, i, j, k))),
                                             Scale(dssp, Add(Add(Rates(LineAt(u, X, j, k), i), Rates(LineAt(u, Y, i, k), j)), Rates(LineAt(u, Z, i, j), k)))))
    {
      if Large() {
        forall i, j, k | Within(rhs, i, j, k) && Interior(rhs, i, j, k)
          ensures rhs[i, j, k] == Scale(dt, Sub(Add(forcing[i, j, k], Add(Add(f.flux(X, i, j, k), f.flux(Y, i, j, k)), f.flux(Z, i, j, k))),
                                               Scale(dssp, Add(Add(Rates(LineAt(u, X, j, k), i), Rates(LineAt(u, Y, i, k), j)), Rates(LineAt(u, Z, i, j), k)))))
        {
          CombinedVector(dt, dssp, rhs[i, j, k], forcing[i, j, k], f.flux, LineAt(u, X, j, k), LineAt(u, Y, i, k), LineAt(u, Z, i, j), i, j, k);
        }
      }
    }

    /** What is computed from the arrays is the right-hand side for the grid that they hold. */
    lemma {:induction false} RhsOfGrid(f: Physics)
      requires Valid()
      requires forall i, j, k :: Within(rhs, i, j, k) && !Interior(rhs, i, j, k) ==> rhs[i, j, k] == ZERO5
      requires forall i, j, k :: Within(rhs, i, j, k) && Interior(rhs, i, j, k) ==>
                 Combined(dt, dssp, rhs[i, j, k], forcing[i, j, k], f.flux, LineAt(u, X, j, k), LineAt(u, Y, i, k), LineAt(u, Z, i, j), i, j, k)
      ensures Fits(rhs, X, Lines(u, X)) && IsRhs(f, Lines(u, X), Lines(rhs, X))
    {
      var g, r := Lines(u, X), Lines(rhs, X);
      forall i, j, k | Within(rhs, i, j, k) ensures r[j][k][i] == rhs[i, j, k] {
        assert In(rhs, X, i, j, k);
      }
      forall i, j, k | Within(rhs, i, j, k) && Interior(rhs, i, j, k)
        ensures Combined(dt, dssp, r[j][k][i], forcing[i, j, k], f.flux,
                         LineOf(rhs, g, X, j, k), LineOf(rhs, g, Y, i, k), LineOf(rhs, g, Z, i, j), i, j, k)
      {
        GridLine(X, j, k);
        GridLine(Y, i, k);
        GridLine(Z, i, j);
      }
    }

    lemma {:induction false} GridLine(d: Axis, p: int, q: int)
      requires Valid() && 0 <= p < Across(u, d) && 0 <= q < Deep(u, d)
      ensures LineOf(rhs, Lines(u, X), d, p, q) == LineAt(u, d, p, q)
    {
      LineOfSnapshot(u, d, p, q);
      assert LineAt(u, d, p, q) == Lines(u, d)[p][q];
      assert LineOf(rhs, Lines(u, X), d, p, q) == LineOf(u, Lines(u, X), d, p, q);
    }

    /** `add`: the update goes to the interior only. */
    method AddUpdate()
      requires Valid()
      modifies u
      ensures forall i, j, k :: Within(u, i, j, k) ==>
                u[i, j, k] == if Interior(u, i, j, k) then Add(old(u[i, j, k]), rhs[i, j, k]) else old(u[i, j, k])
    {
      for i := 1 to u.Length0 - 1
        invariant forall i', j', k' :: Within(u, i', j', k') ==>
                    u[i', j', k'] == if Interior(u, i', j', k') && Reached(i', j', k', i, 0, 0) then Add(old(u[i', j', k']), rhs[i', j', k']) else old(u[i', j', k'])
      {
        for j := 1 to u.Length1 - 1
          invariant forall i', j', k' :: Within(u, i', j', k') ==>
                    u[i', j', k'] == if Interior(u, i', j', k') && Reached(i', j', k', i, j, 0) then Add(old(u[i', j', k']), rhs[i', j', k']) else old(u[i', j', k'])
        {
          for k := 1 to u.Length2 - 1
            invariant forall i', j', k' :: Within(u, i', j', k') ==>
                    u[i', j', k'] == if Interior(u, i', j', k') && Reached(i', j', k', i, j, k) then Add(old(u[i', j', k']), rhs[i', j', k']) else old(u[i', j', k'])
          {
            u[i, j, k] := Add(u[i, j, k], rhs[i, j, k]);
          }
        }
      }
    }

    /** `x_solve`, `y_solve`, `z_solve`. */
    method SolveAxes(f: Physics) returns (ghost r1: Grid, ghost r2: Grid, ghost r3: Grid)
      requires Valid() && StepPivots(f, lhs) && BoundaryBlocks(lhs, X) && BoundaryZero(rhs, X)
      modifies rhs, lhs
      ensures BoundaryBlocks(lhs, X) && BoundaryZero(rhs, X) && r3 == Lines(rhs, X)
      ensures Fits(rhs, X, r1) && Fits(rhs, X, r2)
      ensures Solves(f, rhs, X, old(Lines(rhs, X)), r1) && Solves(f, rhs, Y, r1, r2) && Solves(f, rhs, Z, r2, r3)
      ensures ZeroEdge(rhs, r1) && ZeroEdge(rhs, r2) && ZeroEdge(rhs, r3)
    {
      SolveAxis(lhs, rhs, X, f);
      r1 := Lines(rhs, X);
      EdgeOf(rhs);
      SolveAxis(lhs, rhs, Y, f);
      r2 := Lines(rhs, X);
      EdgeOf(rhs);
      SolveAxis(lhs, rhs, Z, f);
      r3 := Lines(rhs, X);
      EdgeOf(rhs);
    }

    /** `compute_rhs` takes the boundary of `rhs` from the forcing. */
    lemma {:induction false} EdgeOfForcing()
      requires Valid() && BoundaryZero(forcing, X)
      requires forall i, j, k :: Within(rhs, i, j, k) && !Interior(rhs, i, j, k) ==> rhs[i, j, k] == forcing[i, j, k]
      ensures forall i, j, k :: Within(rhs, i, j, k) && !Interior(rhs, i, j, k) ==> rhs[i, j, k] == ZERO5
      ensures BoundaryZero(rhs, X)
    {
      forall i, j, k | Within(rhs, i, j, k) && !Interior(rhs, i, j, k) ensures rhs[i, j, k] == ZERO5 {
        assert In(forcing, X, i, j, k) && OnFace(forcing, X, i, j, k) && At(forcing, X, i, j, k) == forcing[i, j, k];
      }
      forall s, p, q | In(rhs, X, s, p, q) && OnFace(rhs, X, s, p, q) ensures At(rhs, X, s, p, q) == ZERO5 {
        assert Within(rhs, s, p, q);
      }
    }

    /** `adi`: one time step, for given fluxes and blocks. */
    method Adi(f: Physics) returns (ghost r0: Grid, ghost r1: Grid, ghost r2: Grid, ghost r3: Grid)
      requires Valid() && Ready() && StepPivots(f, lhs)
      modifies u, rhs, lhs
      ensures Ready() && BoundaryZero(rhs, X)
      ensures StepOf(f, old(Lines(u, X)), Lines(u, X), r0, r1, r2, r3)
    {
      ghost var g := Lines(u, X);
      ComputeRhs(f);
      EdgeOfForcing();
      RhsOfGrid(f);
      r0 := Lines(rhs, X);
      r1, r2, r3 := SolveAxes(f);
      AddGrid();
    }

    /** The same on grids as values. */
    method AddGrid()
      requires Valid() && ExactFaces()
      modifies u
      ensures Updated(old(Lines(u, X)), Lines(rhs, X), Lines(u, X)) && ExactFaces()
    {
      ghost var g, r := Lines(u, X), Lines(rhs, X);
      AddUpdate();
      forall i, j, k | Within(rhs, i, j, k)
        ensures Lines(u, X)[j][k][i] == if Interior(rhs, i, j, k) then Add(g[j][k][i], r[j][k][i]) else g[j][k][i]
      {
        assert In(u, X, i, j, k) && In(rhs, X, i, j, k);
      }
    }

    /** The exact solution on the whole grid. */
    function ExactGrid(): Grid
      requires u.Length0 >= 2 && u.Length1 >= 2 && u.Length2 >= 2
    {
      seq(u.Length1, j => seq(u.Length2, k => seq(u.Length0, i => ExactAt(i, j, k))))
    }

    lemma {:induction false} ExactIsGrid()
      requires Valid() && Exact()
      ensures Lines(u, X) == ExactGrid()
    {
      var g, e := Lines(u, X), ExactGrid();
      forall j | 0 <= j < |g| ensures g[j] == e[j] {
        forall k | 0 <= k < |g[j]| ensures g[j][k] == e[j][k] {
          forall i | 0 <= i < |g[j][k]| ensures g[j][k][i] == e[j][k][i] {
            assert In(u, X, i, j, k) && Within(u, i, j, k);
          }
        }
      }
    }

    /**
     A step whose fluxes and blocks are those of the flow `u`; it fails if they give a zero pivot. At the
     exact solution, with the fluxes that the forcing was made for, it does not move.
     */
    method TimeStep(flow: Flow) returns (ok: bool)
      requires Valid() && Ready()
      modifies u, rhs, lhs
      ensures Ready() && ok == StepPivots(flow(old(Lines(u, X))), lhs)
      ensures ok ==> BoundaryZero(rhs, X) && AdvancesTo(flow(old(Lines(u, X))), old(Lines(u, X)), Lines(u, X))
      ensures !ok ==> unchanged(u, rhs, lhs) && Lines(u, X) == old(Lines(u, X))
      ensures old(Exact()) && Forced(flow(ExactGrid()).flux) ==> Exact()
    {
      ghost var g := Lines(u, X);
      var f := flow(Lines(u, X));
      if !StepPivots(f, lhs) {
        return false;
      }
      ghost var still := Exact() && Forced(flow(ExactGrid()).flux);
      if still {
        ExactIsGrid();
      }
      ghost var r0, r1, r2, r3;
      r0, r1, r2, r3 := Adi(f);
      assert AdvancesTo(f, g, Lines(u, X));
      if still {
        ExactStays(f, Lines(u, X));
        GridIsExact();
      }
      return true;
    }

    lemma {:induction false} GridIsExact()
      requires Valid() && Lines(u, X) == ExactGrid()
      ensures Exact()
    {
      var g := ExactGrid();
      forall i, j, k | Within(u, i, j, k) ensures u[i, j, k] == ExactAt(i, j, k) {
        assert In(u, X, i, j, k);
        assert g[j][k][i] == ExactAt(i, j, k);
      }
    }

    /** The value that one of the six face loops stores, with the coordinate across the face given as `end`. */
    function FaceValue(d: Axis, end: real, p: int, q: int): Vec5
      requires u.Length0 >= 2 && u.Length1 >= 2 && u.Length2 >= 2
    {
      match d
      case X => exact(end, Coordinate(u.Length1, p), Coordinate(u.Length2, q))
      case Y => exact(Coordinate(u.Length0, p), end, Coordinate(u.Length2, q))
      case Z => exact(Coordinate(u.Length0, p), Coordinate(u.Length1, q), end)
    }

    /** The exact solution at a grid point given along an axis. */
    function ExactAlong(d: Axis, s: int, p: int, q: int): Vec5
      requires u.Length0 >= 2 && u.Length1 >= 2 && u.Length2 >= 2
    {
      match d case X => ExactAt(s, p, q) case Y => ExactAt(p, s, q) case Z => ExactAt(p, q, s)
    }

    /** The faces `0.0` and `1.0` are the first and the last grid point. */
    lemma {:induction false} FaceIsExact(d: Axis, p: int, q: int)
      requires Valid()
      ensures FaceValue(d, 0.0, p, q) == ExactAlong(d, 0, p, q)
      ensures FaceValue(d, 1.0, p, q) == ExactAlong(d, Along(u, d) - 1, p, q)
    {
      EndPoints(Along(u, d));
    }

    predicate OnThisFace(d: Axis, high: bool, i: int, j: int, k: int) {
      match d
      case X => i == (if high then u.Length0 - 1 else 0)
      case Y => j == (if high then u.Length1 - 1 else 0)
      case Z => k == (if high then u.Length2 - 1 else 0)
    }

    /** One of the six face loops of `initialize`; an edge shared with an earlier face gets the same value again. */
    method SetFace(d: Axis, high: bool)
      requires Valid()
      modifies u
      ensures forall i, j, k :: Within(u, i, j, k) ==>
                u[i, j, k] == if OnThisFace(d, high, i, j, k) then ExactAt(i, j, k) else old(u[i, j, k])
    {
      var s, end := if high then Along(u, d) - 1 else 0, if high then 1.0 else 0.0;
      for p := 0 to Across(u, d)
        invariant forall s', p', q' :: In(u, d, s', p', q') ==>
                      At(u, d, s', p', q') == if s' == s && p' < p then ExactAlong(d, s', p', q') else old(At(u, d, s', p', q'))
      {
        for q := 0 to Deep(u, d)
          invariant forall s', p', q' :: In(u, d, s', p', q') ==>
                      At(u, d, s', p', q') == if s' == s && (p' < p || (p' == p && q' < q)) then ExactAlong(d, s', p', q') else old(At(u, d, s', p', q'))
        {
          FaceIsExact(d, p, q);
          Put(u, d, s, p, q, FaceValue(d, end, p, q));
        }
      }
      forall i, j, k | Within(u, i, j, k)
        ensures u[i, j, k] == if OnThisFace(d, high, i, j, k) then ExactAt(i, j, k) else old(u[i, j, k])
      {
        match d
        case X => assert In(u, d, i, j, k) && At(u, d, i, j, k) == u[i, j, k];
        case Y => assert In(u, d, j, i, k) && At(u, d, j, i, k) == u[i, j, k];
        case Z => assert In(u, d, k, i, j) && At(u, d, k, i, j) == u[i, j, k];
      }
    }

    /** What `initialize` leaves in `u`. */
    ghost predicate IsStart(g: Grid, start: (int, int, int) -> Vec5)
      requires Valid()
    {
      && Fits(rhs, X, g)
      && forall i, j, k :: Within(rhs, i, j, k) ==> g[j][k][i] == if Interior(rhs, i, j, k) then start(i, j, k) else ExactAt(i, j, k)
    }

    /** `initialize`: arbitrary values first, then west, east, south, north, bottom, top. */
    method Initialize(start: (int, int, int) -> Vec5)
      requires Valid()
      modifies u
      ensures ExactFaces() && IsStart(Lines(u, X), start)
      ensures StartsExact(start) ==> Exact()
    {
      Fill(u, start);
      SetFace(X, false);
      SetFace(X, true);
      SetFace(Y, false);
      SetFace(Y, true);
      SetFace(Z, false);
      SetFace(Z, true);
      StartOf(start);
    }

    lemma {:induction false} StartOf(start: (int, int, int) -> Vec5)
      requires Valid() && ExactFaces()
      requires forall i, j, k :: Within(u, i, j, k) && Interior(u, i, j, k) ==> u[i, j, k] == start(i, j, k)
      ensures IsStart(Lines(u, X), start)
    {
      forall i, j, k | Within(rhs, i, j, k)
        ensures Lines(u, X)[j][k][i] == if Interior(rhs, i, j, k) then start(i, j, k) else ExactAt(i, j, k)
      {
        assert In(u, X, i, j, k) && Within(u, i, j, k);
      }
    }

    lemma {:induction false} StartUnique(g: Grid, g': Grid, start: (int, int, int) -> Vec5)
      requires Valid() && IsStart(g, start) && IsStart(g', start)
      ensures g == g'
    {
      SameGrids(rhs, g, g');
    }

    /** A step, and the list of the grids so far. */
    method NextStep(flow: Flow, ghost before: seq<Grid>) returns (ok: bool, ghost trace: seq<Grid>)
      requires Valid() && Ready() && Trace(flow, before) && before[|before| - 1] == Lines(u, X)
      modifies u, rhs, lhs
      ensures Ready() && Trace(flow, trace) && trace[0] == before[0] && trace[|trace| - 1] == Lines(u, X)
      ensures if ok then |trace| == |before| + 1 && BoundaryZero(rhs, X) else trace == before && !StepPivots(flow(Lines(u, X)), lhs)
      ensures ok == StepPivots(flow(before[|before| - 1]), lhs)
      ensures old(Exact()) && Forced(flow(ExactGrid()).flux) ==> Exact()
    {
      trace := before;
      ok := TimeStep(flow);
      if ok {
        TraceExtends(flow, before, Lines(u, X));
        trace := before + [Lines(u, X)];
      }
    }

    /**
     The time steps; `trace` lists the grids from the first to the last. `false` if one of the steps met a zero
     pivot: then the last grid gives it.
     */
    method Iterate(flow: Flow, iterations: nat) returns (ok: bool, ghost trace: seq<Grid>)
      requires Valid() && Ready()
      modifies u, rhs, lhs
      ensures Ready()
      ensures Trace(flow, trace) && trace[0] == old(Lines(u, X)) && trace[|trace| - 1] == Lines(u, X)
      ensures if ok then |trace| == iterations + 1 else |trace| <= iterations && !StepPivots(flow(Lines(u, X)), lhs)
      ensures ok && (iterations > 0 || old(BoundaryZero(rhs, X))) ==> BoundaryZero(rhs, X)
      ensures old(Exact()) && Forced(flow(ExactGrid()).flux) ==> Exact()
    {
      ghost var still := Exact() && Forced(flow(ExactGrid()).flux);
      trace := [Lines(u, X)];
      for step := 0 to iterations
        invariant Ready() && (step > 0 || old(BoundaryZero(rhs, X)) ==> BoundaryZero(rhs, X)) && (still ==> Exact())
        invariant Trace(flow, trace) && trace[0] == old(Lines(u, X)) && |trace| == step + 1 && trace[step] == Lines(u, X)
      {
        ok, trace := NextStep(flow, trace);
        if !ok {
          return;
        }
      }
      ok := true;
    }

    ghost predicate StartsExact(start: (int, int, int) -> Vec5)
      requires Valid()
    {
      forall i, j, k :: Within(u, i, j, k) && Interior(u, i, j, k) ==> start(i, j, k) == ExactAt(i, j, k)
    }

    /** `initialize`, `lhsinit`, `exact_rhs`. */
    method SetUp(start: (int, int, int) -> Vec5, force: Flux)
      requires Valid()
      modifies u, lhs, forcing
      ensures Ready() && Forced(force) && IsStart(Lines(u, X), start)
      ensures StartsExact(start) ==> Exact()
    {
      Initialize(start);
      LhsInit();
      ExactRhs(force);
    }

    /** The second `initialize` and the time steps. */
    method StartAgain(start: (int, int, int) -> Vec5, flow: Flow, iterations: nat) returns (ok: bool, ghost trace: seq<Grid>)
      requires Valid() && Ready()
      modifies u, rhs, lhs
      ensures Ready()
      ensures Trace(flow, trace) && IsStart(trace[0], start) && trace[|trace| - 1] == Lines(u, X)
      ensures if ok then |trace| == iterations + 1 else |trace| <= iterations && !StepPivots(flow(Lines(u, X)), lhs)
      ensures ok && (iterations > 0 || old(BoundaryZero(rhs, X))) ==> BoundaryZero(rhs, X)
      ensures StartsExact(start) && Forced(flow(ExactGrid()).flux) ==> Exact()
    {
      Initialize(start);
      ok, trace := Iterate(flow, iterations);
    }

    /** One warm-up step, and then everything again from the start. */
    method WarmUpAndIterate(start: (int, int, int) -> Vec5, flow: Flow, iterations: nat) returns (ok: bool, ghost trace: seq<Grid>)
      requires Valid() && Ready() && IsStart(Lines(u, X), start)
      modifies u, rhs, lhs
      ensures Ready()
      ensures Trace(flow, trace) && IsStart(trace[0], start) && trace[|trace| - 1] == Lines(u, X)
      ensures if ok then |trace| == iterations + 1 else (|trace| <= iterations || |trace| == 1) && !StepPivots(flow(Lines(u, X)), lhs)
      ensures ok ==> StepPivots(flow(trace[0]), lhs) && BoundaryZero(rhs, X)
      ensures old(Exact()) && StartsExact(start) && Forced(flow(ExactGrid()).flux) ==> Exact()
    {
      ghost var first := Lines(u, X);
      trace := [first];
      ok := TimeStep(flow);
      if ok {
        ok, trace := StartAgain(start, flow, iterations);
        StartUnique(first, trace[0], start);
      }
    }

    /**
     The main program: set up once, one warm-up step, initialize again, then the time steps. `trace` lists the
     grids from the start to the end; by `TraceUnique` there is only one such list. A zero pivot at the start
     ends the program in the warm-up step.
     */
    method Run(start: (int, int, int) -> Vec5, force: Flux, flow: Flow, iterations: nat) returns (ok: bool, ghost trace: seq<Grid>)
      requires Valid()
      modifies u, rhs, lhs, forcing
      ensures Ready() && Forced(force)
      ensures Trace(flow, trace) && IsStart(trace[0], start) && trace[|trace| - 1] == Lines(u, X)
      ensures if ok then |trace| == iterations + 1 else (|trace| <= iterations || |trace| == 1) && !StepPivots(flow(Lines(u, X)), lhs)
      ensures ok ==> StepPivots(flow(trace[0]), lhs) && BoundaryZero(rhs, X)
      ensures StartsExact(start) && flow(ExactGrid()).flux == force ==> Exact()
    {
      SetUp(start, force);
      ok, trace := WarmUpAndIterate(start, flow, iterations);
    }
  }
}
