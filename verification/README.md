# Verified models of the ROSE tutorial algorithms

This project models, in Dafny, the parts of the ROSE repository that carry complete algorithms or
transformations, and proves what they are for:

* the **NPB 2.3 BT solver** (`tutorial/bt_onefile.c`): the unrolled 5 by 5 Gauss-Jordan kernels, the
  block-tridiagonal line solver in the x, y and z directions, the boundary invariants over any number of
  `adi` steps, and the fourth-order dissipation in five `nowait` pieces;
* **LU factorisation with partial pivoting**, a **periodic tridiagonal solver**, and the **blocked and
  unrolled matrix product** next to its simple form;
* the **coverage runtime** (`tutorial/coverageCodeFromShmuel.c`): a chained hash set with in-place
  relinking, and the lock around it;
* three **source-to-source transformations**: globals gathered into a struct, comma-operator
  instrumentation, and substitution copy, each with an evaluator and a proof that meaning is preserved;
* two **step protocols**: the distributed verifier and the bottom-up renaming of a directory tree.

Numbers of type `double` are `real`; only the matrix product is proved for arbitrary, not even
associative, operations. The BT physics (fluxes, Jacobians, exact solution), the results of unseen
functions, and the outcomes of I/O are arbitrary parameters, so every theorem holds for all of them.

## How it is organised

| files | what they hold |
|---|---|
| `Optional`, `Sequences` | a value that may be missing; sequences without repetition |
| `LinAlg`, `GaussJordan` | vectors, matrices, elimination of any size: the textbook meaning of the kernels |
| `BTKernels`, `BTLine`, `BTPivots`, `BTSweep`, `BTAdi` | kernels on arrays, one line, when its pivots are nonzero, a sweep over the grid, one solve with its boundary |
| `BTLoops`, `BTSteps`, `BTRun` | what the loops of `compute_rhs` add up to, uniqueness of a step, the whole run |
| `Dissipation`, `BTDissipation` | the operator, its energy, its interleavings; the loops on the grid and the energy they take |
| `Dgemm`, `LuFac`, `Tridvpk` | the three loop-optimisation inputs |
| `Coverage`, `CoverageThreads`, `CoverageBounds` | the hash set on the heap; the threads as a state machine and on the real table; which calls keep all runs inside it |
| `Charm`, `CharmAst`, `CharmGlobals`, `CharmFile` | meaning of the struct rewriting; the rewriting in place; the declarations; a whole file |
| `Intervene`, `InterveneAst` | meaning of the instrumentation; the traversal in place |
| `SubstCopy` | the substitution copy |
| `DistVerifier`, `DistRun` | serialization and the protocol; its runs on real objects and buffers |
| `FileTree`, `Anonymize` | renames in a tree; the renaming program |

`dafny verify dfyconfig.toml` checks everything. Code that updates things in place is modelled by
methods on arrays, classes and node tables, each proved against a specification function; the laws are
then proved about those functions.

## Results worth knowing

* **Pivots.** A kernel divides by no zero exactly if every leading block is injective
  (`GaussJordan.PivotsExactly`), and a sweep along a line exactly if every leading section of its
  block-tridiagonal matrix is (`BTPivots.LinePivotsExactly`). Under that condition the code computes the
  one and only solution (`BTLine.LineSolved`), although the pivot column is never written
  (`BTKernels.BinvCRhs`).
* **Steady state.** `exact_rhs` builds the forcing so that the exact solution is a fixed point of the
  program: provided the fluxes that a step computes from the exact grid are those of the forcing, any number of
  steps that starts there stays there (`BTRun.Solver.Run`). The fluxes and blocks of a step are a function of
  the grid; nothing is assumed about it at any other grid, and a zero pivot stops the run.
* **The run.** Every step is a relation between two grids: the right-hand side of the first, three systems solved
  in turn, and the sum. Without zero pivots a grid has one successor, so the final `u` is determined by the start
  and the number of steps (`BTRun.Solver.Run`, `BTRun.Solver.TraceUnique`).
* **Energy.** What the dissipation of an axis takes from `rhs`, times `u` and summed over the grid, is `dssp`
  times a sum of squares (`BTDissipation.GridEnergy`).
* **Six points.** The five dissipation pieces stay in the array exactly with five points or more, and give the
  squared Laplacian in every interleaving exactly with six or more (`Dissipation.ExactlySix`).
* **LU.** The code divides by zero exactly if the first n-1 columns are linearly dependent
  (`LuFac.Factor`); the last pivot is never divided by.
* **Hash codes.** The bucket index is in range exactly if the sum, read as a signed `int`, is not
  negative or is a multiple of the capacity (`Coverage.BucketInRange`); the string of one character -1
  for example leaves the first table (`Coverage.NegativeExample`). A string that fits a table fits all
  smaller ones, and the final capacity depends only on the number of different strings. So no schedule of given
  calls ever leaves the table exactly if all their strings fit the final one, and otherwise no run completes
  inside it (`CoverageBounds.NeverLostExactly`, `CoverageBounds.CompleteFits`).
* **Instrumentation.** The comment in `tutorial/interveneAtVariables.C:219` announces that right-hand sides
  of assignments are covered ("not else!"), but the code skips them when the left side is a variable. The
  model follows the code. Member names are references too and get a hook, so exactly the expressions without
  member selection stay well formed (`Intervene.MembersBreak`).
* **Globals.** A declaration with two variables makes the move fail, because its statement is gone when
  the second variable comes up: the move succeeds exactly if no declaration declares two variables
  (`CharmGlobals.GlobalScope.PutIntoStruct`).
* **Substitution copy** runs forever exactly if the symbol is mentioned in the copied tree and below the
  root of the replacement (`SubstCopy.CopyTerminates`).
* **Reports with a NUL** are cut when they are merged; the merged report is complete exactly if the
  merged reports contain none (`DistVerifier.NothingLost`).
* **Renaming.** The help text of the script calls its effect irreversible
  (`scripts/distructiveAnonymizationOfDirectoriesAndFiles.py:63`), but the mapping that a complete run
  prints, replayed backwards, restores the tree (`Anonymize.Anonymize`). A line is printed before the new
  name is looked up: a run stopped by a name that is taken has printed one line too many, and then the mapping
  cannot be replayed as it is, while without that line it can (`Anonymize.StrayLine`). A sequential run is
  stopped exactly by an entry whose new name belongs to an entry of the same directory that has not been
  renamed yet, possibly to itself (`Anonymize.EndsWhenUnblocked`).

## Model

| member | source | states |
|---|---|---|
| `GaussJordan.ReduceSound` | tutorial/bt_onefile.c:3077-3341 | k stages with nonzero pivots turn the first k columns into unit columns and neither lose nor add a solution of the augmented system |
| `GaussJordan.SolveCorrect` | tutorial/bt_onefile.c:3077-3341 | for any size and any right-hand sides, a vector solves b x = r_j if and only if it is column j of the elimination's result |
| `GaussJordan.SolveProduct` | tutorial/bt_onefile.c:3077-3341 | b times the result is the original block of right-hand sides |
| `GaussJordan.ReduceColumns` | tutorial/bt_onefile.c:3077-3486 | the leading columns evolve independently of what is appended, so both inversions see the same pivots |
| `GaussJordan.PivotsExactly` | tutorial/bt_onefile.c:3077-3486 | the successive pivots are nonzero if and only if every leading block annihilates only the zero vector |
| `BTKernels.MatvecSub` | tutorial/bt_onefile.c:3006-3028 | in place, bvec loses exactly the matrix-vector product ablock avec |
| `BTKernels.MatmulSub` | tutorial/bt_onefile.c:3033-3072 | in place, cblock loses exactly the matrix product ablock bblock |
| `BTKernels.PivotStage` | tutorial/bt_onefile.c:3088-3146 | one pivot of the code is one textbook stage on the matrix the arrays stand for, and the pivot column and all before it stay unwritten |
| `BTKernels.BinvCRhs` | tutorial/bt_onefile.c:3077-3341 | for the original block B, the new c satisfies B c' = c and the new r satisfies B r' = r; what remains in lhs is stated as well |
| `BTKernels.BinvRhs` | tutorial/bt_onefile.c:3346-3486 | the new r satisfies B r' = r and is the same vector that the other inversion computes |
| `BTKernels.SolveVecCorrect` | tutorial/bt_onefile.c:3346-3486 | that vector is the one and only solution |
| `BTLine.RowIsEliminated` | tutorial/bt_onefile.c:2908-3001 | once the previous row is eliminated, an original row holds if and only if the eliminated row of the forward sweep holds |
| `BTLine.EliminatedIsBack` | tutorial/bt_onefile.c:2876-2903 | the eliminated rows force every unknown to be what back substitution computes |
| `BTLine.LineSolved` | tutorial/bt_onefile.c:2876-3001 | for every line length, x solves A x[i-1] + B x[i] + C x[i+1] = r[i] at all i if and only if x is the result of the two sweeps |
| `BTPivots.ZeroLine` | tutorial/bt_onefile.c:2876-3001 | with a zero right-hand side only the zero vector solves a line |
| `BTPivots.LinePivotsExactly` | tutorial/bt_onefile.c:2876-3001 | the sweep along a line divides by no zero if and only if every leading section of the whole block-tridiagonal matrix annihilates only the zero vector |
| `BTSweep.CallKernels` | tutorial/bt_onefile.c:2945-2966 | matvec_sub, matmul_sub and binvcrhs or binvrhs in turn, on arrays, make of a cell what the sweep needs; their preconditions on pivots are met |
| `BTSweep.ForwardCell` | tutorial/bt_onefile.c:2945-2966 | one cell of the forward sweep, by calling the kernels on its blocks, becomes the next cell of its swept line and nothing else changes; the pivots of the line must be nonzero |
| `BTSweep.SolveCell` | tutorial/bt_onefile.c:2908-3001 | the plane-by-plane forward sweep leaves on every inner line, of any of the three axes, the swept line of the original; every division in it is by a nonzero pivot |
| `BTSweep.BackVec` | tutorial/bt_onefile.c:2892-2897 | the double loop over block entries subtracts the matrix-vector product |
| `BTSweep.BackPlanesSweep` | tutorial/bt_onefile.c:3515-3542 | back substitution in the plane order of x and y solves every inner line |
| `BTSweep.BackLinesSweep` | tutorial/bt_onefile.c:3672-3699 | back substitution in the line order of z gives the same lines |
| `BTSweep.BackSubstitute` | tutorial/bt_onefile.c:2876-2903 | whatever the order, the swept lines become the solved lines |
| `BTSweep.Sweep` | tutorial/bt_onefile.c:3547-3643 | forward and backward sweep together, on the grid and over the kernels, are the line solver on every inner line and the identity elsewhere |
| `BTSweep.SweepSolves` | tutorial/bt_onefile.c:3704-3808 | after a sweep each inner line of rhs is the one and only solution of its system for the original blocks and right-hand side |
| `BTAdi.BoundarySurvives` | tutorial/bt_onefile.c:2908-3001 | a sweep maps the end blocks A=0, B=I, C=0 to themselves |
| `BTAdi.BoundaryRhsSurvives` | tutorial/bt_onefile.c:2908-3001 | the solution at such an end is the right-hand side there |
| `BTAdi.LhsSetup` | tutorial/bt_onefile.c:1090-1372 | overwriting the interior blocks keeps all end blocks and gives every inner line the step's blocks between two unit ends |
| `BTAdi.SolveAxis` | tutorial/bt_onefile.c:2850-2871 | one direction: end blocks stay, boundary right-hand sides stay zero, and every inner line solves the step's system |
| `BTLoops.Fill` | tutorial/bt_onefile.c:509-517 | a triple loop sets every cell |
| `BTLoops.UpdateInterior` | tutorial/bt_onefile.c:2005-2056 | a triple loop over the interior updates every inner cell and no other |
| `BTLoops.AddAxes` | tutorial/bt_onefile.c:2002-2366 | flux loops and dissipation loops of the three axes in program order add the three fluxes to an inner cell and take the three dissipation terms from it, and leave the boundary alone |
| `BTLoops.PartIsLoss` | tutorial/bt_onefile.c:2062-2125 | with six points or more the iterations along an axis take dssp times the squared Laplacian of the line |
| `BTLoops.CombinedComponent` | tutorial/bt_onefile.c:2002-2378 | spelled out for a component m: t times (b plus the three fluxes, less dssp times the sum of the squared Laplacians along x, y and z) |
| `BTRun.EndPoints` | tutorial/bt_onefile.c:943-1042 | the first and last grid coordinates are exactly 0 and 1 |
| `BTRun.EvenlySpaced` | tutorial/bt_onefile.c:895-903 | neighbouring grid points are 1/(n-1) apart everywhere |
| `BTRun.Solver.FaceIsExact` | tutorial/bt_onefile.c:943-1042 | the face values taken at 0 and 1 are the exact solution at the first and last grid point |
| `BTRun.Solver.SetFace` | tutorial/bt_onefile.c:947-959 | one face gets the exact solution, everything else stays |
| `BTRun.Solver.Initialize` | tutorial/bt_onefile.c:861-1042 | all six faces carry the exact solution, the interior the start values; that is one grid, whatever was there before |
| `BTRun.Solver.LhsInit` | tutorial/bt_onefile.c:1047-1085 | every end of a line has A=0, B=I, C=0 |
| `BTRun.Solver.ExactRhs` | tutorial/bt_onefile.c:493-830 | the forcing is zero on the boundary, and inside the negative of the three fluxes less dssp times the squared Laplacians of the exact solution along the three axes |
| `BTRun.Solver.ComputeRhs` | tutorial/bt_onefile.c:1985-2378 | the boundary of rhs is that of forcing; inside it is dt times (forcing plus the three fluxes, less dssp times the squared Laplacians of u along the three axes) |
| `BTRun.Solver.ExactBalance` | tutorial/bt_onefile.c:1985-2378 | where u is the exact solution and the fluxes are those of the forcing, the right-hand side of a step is zero |
| `BTRun.Solver.ExactStays` | tutorial/bt_onefile.c:402-412 | the exact solution is the only successor of itself, if the fluxes there are those of the forcing |
| `BTRun.Solver.AdvancesUnique` | tutorial/bt_onefile.c:402-412 | without zero pivots a grid has exactly one successor |
| `BTRun.Solver.TraceUnique` | tutorial/bt_onefile.c:336-347 | the first grid and the number of steps determine every grid of a run |
| `BTRun.Solver.AddUpdate` | tutorial/bt_onefile.c:378-397 | u grows by rhs in the interior and keeps its faces |
| `BTRun.Solver.Adi` | tutorial/bt_onefile.c:402-412 | one step: from the old u the right-hand side, from it the solutions of the x, y and z systems in turn, and the new u is the old plus the last of them in the interior; faces, end blocks and zero boundary are kept |
| `BTRun.Solver.TimeStep` | tutorial/bt_onefile.c:402-412 | a step succeeds if and only if the blocks of the current grid give no zero pivot, and changes nothing otherwise; then the old grid advances to the new one: right-hand side, three systems solved in turn, sum; the exact solution does not move if the fluxes there are those of the forcing |
| `BTRun.Solver.Iterate` | tutorial/bt_onefile.c:336-347 | the grids from the first to the last, one more than there are steps, each advance to the next with the fluxes and blocks of the earlier one; a zero pivot ends the list with the grid that gives it |
| `BTRun.Solver.Run` | tutorial/bt_onefile.c:316-347 | u at the end is the last grid of the one list that starts with the initialized grid and takes every step, with lhsinit run only once and the warm-up step forgotten; faces, end blocks, forcing and boundary right-hand sides stay as they must, up to the first zero pivot if there is one; started at the exact solution, with a flow whose fluxes at the exact grid are those of the forcing, the run stays there |
| `Dissipation.StencilIsBiharmonic` | tutorial/bt_onefile.c:2062-2125 | with six or more points each of the five pieces is the row of tridiag(-1,2,-1) squared at its point |
| `Dissipation.Symmetric` | tutorial/bt_onefile.c:2062-2125 | the discrete Laplacian is symmetric on the interior |
| `Dissipation.Dissipates` | tutorial/bt_onefile.c:2062-2125 | the sum of u D(u) is a sum of squares, never negative, and zero only for the zero line |
| `Dissipation.Disjoint` | tutorial/bt_onefile.c:2065-2125 | with six or more points no two iterations of the consecutive loops touch the same cell |
| `Dissipation.RunKeepsProgress` | tutorial/bt_onefile.c:2065-2125 | in the middle of any interleaved run every cell has its first or its final value |
| `Dissipation.AnyInterleaving` | tutorial/bt_onefile.c:2065-2125 | every complete interleaving of loads and stores gives the sequential result, the squared Laplacian |
| `Dissipation.FivePointsFail` | tutorial/bt_onefile.c:2065-2125 | with five points, where all reads are in range, the run in program order already gives something else |
| `Dissipation.FivePointsNeeded` | tutorial/bt_onefile.c:2065-2125 | the loops read only points of the line if and only if it has at least five |
| `Dissipation.ExactlySix` | tutorial/bt_onefile.c:2185-2245 | all reads are in range and every run gives the promised result if and only if there are at least six points |
| `BTDissipation.DampAxis` | tutorial/bt_onefile.c:2303-2366 | the loops on the grid, along any axis and for every number of points with which they stay in the array, take from every inner line what the iterations subtract, also where two of them meet, and leave everything else |
| `BTDissipation.LossIsBiharmonic` | tutorial/bt_onefile.c:2182-2245 | from six points on, what is taken is dssp times the squared Laplacian, for each of the five components |
| `BTDissipation.LineEnergy` | tutorial/bt_onefile.c:2182-2245 | on one line, for one component, u times what is taken sums up to dssp times a sum of squares |
| `BTDissipation.GridEnergy` | tutorial/bt_onefile.c:2182-2366 | on the whole grid, over all inner points and components, the sum of u times what the loops of an axis take is dssp times a sum of squares, so they add no energy |
| `BTDissipation.EndsLoseNothing` | tutorial/bt_onefile.c:2182-2245 | nothing is taken at the ends of a line |
| `Dgemm.Step` | tutorial/inputCode_LoopOptimization_dgemm.C:15 | one update extends the sum of one element by its next term |
| `Dgemm.GemmSimple` | tutorial/inputCode_LoopOptimization_dgemm.C:12-18 | the triple loop leaves in every element the sum of all its terms in ascending order |
| `Dgemm.Unrolled` | tutorial/inputCode_codeGenerationFormatControl.C:15-48 | the sixteen unrolled updates extend sixteen neighbouring sums by the same term number |
| `Dgemm.BlockRow` | tutorial/inputCode_codeGenerationFormatControl.C:13-52 | unrolled loop and remainder loop cover a row of a block once |
| `Dgemm.GemmBlocked` | tutorial/inputCode_codeGenerationFormatControl.C:10-55 | the blocked and unrolled loops leave the same sums, for every n and arbitrary addition and multiplication |
| `Dgemm.SameArray` | tutorial/inputCode_codeGenerationFormatControl.C:10-55 | two arrays that hold these sums are equal, so both programs give exactly the same c |
| `Dgemm.AccIsDot` | tutorial/inputCode_LoopOptimization_dgemm.C:12-18 | over the reals each element grows by the product of its row and column |
| `LuFac.FindPivot` | tutorial/inputCode_LoopOptimization_lufac.C:15-22 | the chosen row is in range and has the largest absolute value in the column |
| `LuFac.EliminateColumn` | tutorial/inputCode_LoopOptimization_lufac.C:24-37 | swap, scaling and update in place are one exchange and elimination on the matrix that the array stands for, with the multipliers stored below |
| `LuFac.StepReplays` | tutorial/inputCode_LoopOptimization_lufac.C:24-37 | the new matrix times x is one replayed swap and elimination of the old matrix times x |
| `LuFac.GrowthStep` | tutorial/inputCode_LoopOptimization_lufac.C:30-37 | a round at most doubles the largest active entry |
| `LuFac.ZeroColumn` | tutorial/inputCode_LoopOptimization_lufac.C:15-22 | a zero pivot exhibits a nonzero combination of the leading columns that vanishes |
| `LuFac.Factor` | tutorial/inputCode_LoopOptimization_lufac.C:14-38 | a zero pivot is met if and only if the first n-1 columns are dependent; otherwise the final a and p are factors of A: U x is the replay of their swaps and multipliers on A x for every x; k <= p[k] < n, multipliers are at most 1, and row i is bounded by 2^i times the largest entry |
| `LuFac.ReplayInjective` | tutorial/inputCode_LoopOptimization_lufac.C:24-37 | replaying swaps and multipliers loses nothing |
| `LuFac.ReplaySame` | tutorial/inputCode_LoopOptimization_lufac.C:24-37 | the replay depends only on p and on the entries below the diagonal |
| `LuFac.FactorsDetermine` | tutorial/inputCode_LoopOptimization_lufac.C:14-38 | two matrices with the same final array and the same p are equal, although swaps leave earlier multiplier columns alone |
| `Tridvpk.LowerSolved` | tutorial/inputCode_LoopOptimization_tridvpk.C:10-30 | L y = f in the first m rows if and only if y is what the forward sweep and the dot-product row compute |
| `Tridvpk.UpperSolved` | tutorial/inputCode_LoopOptimization_tridvpk.C:32-39 | U x = y if and only if x is what the backward sweep computes |
| `Tridvpk.SolvedExactly` | tutorial/inputCode_LoopOptimization_tridvpk.C:10-39 | L (U x) = f if and only if x is the result |
| `Tridvpk.RunSweeps` | tutorial/inputCode_LoopOptimization_tridvpk.C:10-39 | the loops in place compute that result on every line (i, j) |
| `Tridvpk.SolveLines` | tutorial/inputCode_LoopOptimization_tridvpk.C:10-39 | with all b nonzero every line of duz solves L (U x) = f for its original content |
| `Coverage.ComputeHash` | tutorial/coverageCodeFromShmuel.c:84-92 | the loop computes the sum of the characters modulo 2^32 |
| `Coverage.HashAdds` | tutorial/coverageCodeFromShmuel.c:84-92 | the empty string has hash 0, a single character its signed value, and the hash of a concatenation is the sum of the two, all modulo 2^32 |
| `Coverage.HashCodeIs` | tutorial/coverageCodeFromShmuel.c:111 | the code is in the range of int and equal to the hash modulo 2^32 |
| `Coverage.BucketIs` | tutorial/coverageCodeFromShmuel.c:112 | code and index differ by a multiple of the capacity; the index is smaller than the capacity and has the sign of the code |
| `Coverage.BucketInRange` | tutorial/coverageCodeFromShmuel.c:111-112 | the index after conversion to int and C remainder is in range if and only if the code is not negative or a multiple of the capacity |
| `Coverage.NegativeExample` | tutorial/coverageCodeFromShmuel.c:104-125 | the string of one character -1 has bucket -1 in the first table, of 64 |
| `Coverage.SevenBitIsSafe` | tutorial/coverageCodeFromShmuel.c:84-92 | for positive characters and lengths below 2^31/127 the code is the plain sum, hence safe |
| `Coverage.OneBucketSuffices` | tutorial/coverageCodeFromShmuel.c:125-129 | in a table with every cell in the bucket of its hash, looking through one bucket decides membership |
| `Coverage.Reporter.ReportTask` | tutorial/coverageCodeFromShmuel.c:65-81 | a string is emitted if no error has occurred and printing succeeds; an error latches |
| `Coverage.TaskSet.constructor` | tutorial/coverageCodeFromShmuel.c:114-123 | the new table is empty and valid for every positive capacity |
| `Coverage.TaskSet.Lookup` | tutorial/coverageCodeFromShmuel.c:125-129 | the search finds the string if and only if it is in the set, for every string whose bucket is in the table |
| `Coverage.TaskSet.Insert` | tutorial/coverageCodeFromShmuel.c:133-138 | the set grows by the string, each string stored once, in its bucket |
| `Coverage.TaskSet.Store` | tutorial/coverageCodeFromShmuel.c:133-164 | a new string is added and the table doubled if and only if four times the number of strings exceeds three times the capacity; all buckets used must be in range |
| `Coverage.Relink` | tutorial/coverageCodeFromShmuel.c:147-160 | moving all cells in place to the new table keeps exactly the same cells, each once and in its new bucket |
| `Coverage.TaskSet.Resize` | tutorial/coverageCodeFromShmuel.c:140-164 | doubling the capacity keeps contents, cells and size |
| `Coverage.TaskSet.TaskEncountered` | tutorial/coverageCodeFromShmuel.c:99-166 | the table represents the old set plus the string, with size at most three quarters of capacity; a string is reported exactly when it is new; every bucket that the call uses must be in range |
| `CoverageThreads.StepInv` | tutorial/coverageCodeFromShmuel.c:168-181 | every step of every thread keeps mutual exclusion and the tie between trace, set and acquisitions |
| `CoverageThreads.TraceIsFirsts` | tutorial/coverageCodeFromShmuel.c:125-181 | in every state reached without leaving the table, the trace has no repetition and is a prefix of the first occurrences in lock order, all of them unless an error was latched |
| `CoverageThreads.FirstsOrdered` | tutorial/coverageCodeFromShmuel.c:125-131 | first occurrences are listed in the order of their first acquisition |
| `CoverageThreads.LatchIsFinal` | tutorial/coverageCodeFromShmuel.c:65-81 | after the error latch nothing more is emitted, in any continuation |
| `CoverageThreads.RunAccounted` | tutorial/coverageCodeFromShmuel.c:168-181 | in every reachable state the acquisitions are exactly the calls that were started |
| `CoverageThreads.AllReported` | tutorial/coverageCodeFromShmuel.c:168-181 | when all threads are through without an error and without leaving the table, a string is in the trace if and only if some thread passed it |
| `CoverageBounds.FitsHalf` | tutorial/coverageCodeFromShmuel.c:140-154 | a string with a bucket in the doubled table has one in the table before |
| `CoverageBounds.FitsNeverLost` | tutorial/coverageCodeFromShmuel.c:111-181 | if all strings fit the table that holds them all, no schedule leaves the table, through all its resizes |
| `CoverageBounds.CompleteFits` | tutorial/coverageCodeFromShmuel.c:111-181 | a run that completes without leaving the table shows that all strings fit it |
| `CoverageBounds.CanComplete` | tutorial/coverageCodeFromShmuel.c:168-181 | no deadlock: every run can be continued until all threads are through or the table is left |
| `CoverageBounds.NeverLostExactly` | tutorial/coverageCodeFromShmuel.c:111-181 | no schedule of the calls leaves the table if and only if all strings fit the table that holds them all |
| `CoverageBounds.SafeFits` | tutorial/coverageCodeFromShmuel.c:111-154 | calls without negative codes fit |
| `CoverageBounds.LostExample` | tutorial/coverageCodeFromShmuel.c:111-125 | one call with the string of code -1 leaves the table at once |
| `CoverageBounds.TraceOf` | tutorial/coverageCodeFromShmuel.c:168-181 | for calls that fit, every schedule, run on a new table, prints the trace of the state machine |
| `CoverageThreads.Program.CriticalSection` | tutorial/coverageCodeFromShmuel.c:173-178 | taskEncountered on the real table and report has the effect of the steps between locking and unlocking |
| `CoverageThreads.Program.StepThread` | tutorial/coverageCodeFromShmuel.c:168-181 | every step of a thread on the real table, report and lock is the step of the state machine |
| `CoverageThreads.Program.Execute` | tutorial/coverageCodeFromShmuel.c:168-181 | every schedule on the real table that stays within it: the report is the trace, the table holds the strings stored |
| `Charm.FixedPreserves` | tutorial/CharmSupport.C:234-315 | for programs with pointers, assignments, calls, branches and loops: running the rewritten program on the corresponding store gives the corresponding value and store, or no result on both sides |
| `Charm.MovedInjective` | tutorial/CharmSupport.C:234-315 | the move of globals to members keeps different places different |
| `Charm.UnfixedFixed` | tutorial/CharmSupport.C:234-315 | dropping the struct again gives the program as it was, so nothing but references to globals is touched |
| `CharmAst.Ast.SelectGlobals` | tutorial/CharmSupport.C:66-102 | out of all references exactly those to global symbols are listed, each once; locals that hide a global are left out |
| `CharmAst.Ast.FixupReference` | tutorial/CharmSupport.C:240-313 | one reference becomes a member selection in its parent's operand, the links stay consistent; fails if and only if the parent is no operator |
| `CharmAst.Ast.FixupReferences` | tutorial/CharmSupport.C:234-315 | all listed references are replaced, and nothing else; succeeds if and only if all of them can be |
| `CharmAst.ReplacedIsFixed` | tutorial/CharmSupport.C:234-315 | a table with all global references replaced represents the rewritten tree |
| `CharmAst.Ast.UseStruct` | tutorial/CharmSupport.C:321-362 | succeeds if and only if every global reference is an operand of an operator, and then the nodes represent the rewritten tree |
| `CharmGlobals.GlobalScope.BuildListOfGlobals` | tutorial/CharmSupport.C:8-36 | the nested loops list the variables of all declarations in order |
| `CharmGlobals.GlobalScope.Move` | tutorial/CharmSupport.C:185-227 | replaces or removes one statement and appends it to the struct; fails if and only if it is not there |
| `CharmGlobals.GlobalScope.PutIntoStruct` | tutorial/CharmSupport.C:168-231 | succeeds if and only if no declaration has two variables; then the struct holds the variable declarations in order and stands, with its variable, in place of the first |
| `CharmGlobals.NothingLost` | tutorial/CharmSupport.C:168-231 | each declaration occurs as often in scope and struct together as before; only the struct and its variable are new |
| `CharmGlobals.MembersInOrder` | tutorial/CharmSupport.C:168-231 | the struct holds all declarations with variables, in their order |
| `CharmGlobals.RemainingInOrder` | tutorial/CharmSupport.C:185-227 | struct and variable stand where the first such declaration was, and all others keep their order |
| `CharmFile.FixedSelectsMembers` | tutorial/CharmSupport.C:168-315 | every member selected in the rewritten tree is declared by a declaration that has moved into the struct |
| `CharmFile.FixedMeansTheSame` | tutorial/CharmSupport.C:234-315 | for all stores and libraries that correspond, the rewritten tree does the same |
| `CharmFile.Transform` | tutorial/CharmSupport.C:320-363 | a whole file: succeeds if and only if no declaration has two variables and every global reference is an operand of an operator; then declarations and references have moved, every selected member exists, and the meaning is the same |
| `Intervene.VisitIsMarked` | tutorial/interveneAtVariables.C:198-231 | the bottom-up pass succeeds if and only if no conditional has a bare reference as operand, and then hooks exactly by role: writes, reads, and nothing on bare right sides of assignments to a variable |
| `Intervene.BareOperands` | tutorial/interveneAtVariables.C:112-231 | references directly below an assignment, an operator, a comma, a call and a conditional: the left side of an assignment gets the write hook and its bare right side none, all others the read hook, and below a conditional the pass fails |
| `Intervene.HooksFollowAccesses` | tutorial/interveneAtVariables.C:112-166 | running the instrumented expression is running the original while observing every access, hook by hook |
| `Intervene.ObservingIsHarmless` | tutorial/interveneAtVariables.C:112-166 | observing changes neither value nor memory |
| `Intervene.InstrumentationPreserves` | tutorial/interveneAtVariables.C:112-231 | with hook events erased, value and memory of every expression without member selection are preserved |
| `Intervene.OneHookEach` | tutorial/interveneAtVariables.C:198-231 | removing the hooks gives the original back, and there is exactly one hook per access |
| `Intervene.MembersBreak` | tutorial/interveneAtVariables.C:218-227 | the result is well formed if and only if the expression has no member selection |
| `Intervene.MemberExample` | tutorial/interveneAtVariables.C:218-227 | an instance: a selection that has a value becomes one that has none |
| `InterveneAst.Ast.InstrumentWrite` | tutorial/interveneAtVariables.C:112-119 | the left operand of an assignment becomes the hooked reference, nothing else changes |
| `InterveneAst.Ast.InstrumentRead` | tutorial/interveneAtVariables.C:121-166 | the operand or list element that is the reference becomes the hooked reference; fails if and only if the parent is neither operator nor list |
| `InterveneAst.Ast.Evaluate` | tutorial/interveneAtVariables.C:198-231 | the children of one node are hooked by their roles, all other nodes stay |
| `InterveneAst.DoneIsMarked` | tutorial/interveneAtVariables.C:198-231 | when every node has had its turn, in whatever order, the nodes represent the instrumented expression |
| `InterveneAst.Ast.Traverse` | tutorial/interveneAtVariables.C:198-231 | the traversal in place fails exactly where the pass fails and otherwise leaves its result |
| `SubstCopy.CopyIsSubst` | tutorial/varSubstCopy.C:14-24 | if the replacement does not mention the symbol below its root, the copy is the substitution |
| `SubstCopy.CopyDiverges` | tutorial/varSubstCopy.C:14-24 | otherwise, and if the symbol occurs, no recursion depth is enough |
| `SubstCopy.CopyTerminates` | tutorial/varSubstCopy.C:14-24 | copying ends if and only if the symbol does not occur or the replacement does not mention it below its root |
| `SubstCopy.CopyResult` | tutorial/varSubstCopy.C:14-24 | whenever copying ends, the result is the substitution |
| `SubstCopy.SymbolGone` | tutorial/varSubstCopy.C:14-24 | the copy mentions the symbol if and only if both the original and the replacement do |
| `SubstCopy.Specialises` | tutorial/varSubstCopy.C:14-24 | for a body that never assigns the symbol, running the copy with a literal equals running the original with the symbol bound to it |
| `SubstCopy.StillAssignable` | tutorial/varSubstCopy.C:14-24 | the copy has assignable left sides if and only if the body never assigns the symbol |
| `DistVerifier.Verifier.AnalyzeSubtree` | tutorial/distributedMemoryTraversal_CononicalExample.C:28-36 | success and report take in one more function |
| `DistVerifier.Verifier.Serialize` | tutorial/distributedMemoryTraversal_CononicalExample.C:43-51 | the buffer holds flag, report and terminating NUL |
| `DistVerifier.Verifier.AddSerializedState` | tutorial/distributedMemoryTraversal_CononicalExample.C:57-65 | the flag is merged by conjunction and the report appended up to its first NUL |
| `DistVerifier.EncodeLayout` | tutorial/distributedMemoryTraversal_CononicalExample.C:43-51 | a buffer is one byte for the flag, zero if and only if it is false, the characters of the report, and a NUL |
| `DistVerifier.RoundTrip` | tutorial/distributedMemoryTraversal_CononicalExample.C:43-65 | flag and report survive serialization, the report if and only if it has no NUL |
| `DistVerifier.RunsInv` | tutorial/distributedMemoryTraversal_CononicalExample.C:24-65 | in every reachable state each buffer is complete and counted once, and the root holds its own results followed by what has arrived |
| `DistVerifier.FinalResult` | tutorial/distributedMemoryTraversal_CononicalExample.C:24-65 | for every partition and arrival order: success is the conjunction of all verdicts, and the report is the root's own followed by each process's once, in arrival order |
| `DistVerifier.NothingLost` | tutorial/distributedMemoryTraversal_CononicalExample.C:57-65 | the merged reports are complete if and only if none contains a NUL |
| `DistRun.Cluster.Perform` | tutorial/distributedMemoryTraversal_CononicalExample.C:24-65 | each event of the protocol, carried out by the methods of the objects on real buffers, is its step; every buffer received ends in a NUL |
| `DistRun.Cluster.Execute` | tutorial/distributedMemoryTraversal_CononicalExample.C:24-65 | after a complete run on new objects the distinguished object holds the conjunction of all verdicts and its own report followed by the others, each once, in arrival order |
| `FileTree.RenameIsReversible` | scripts/distructiveAnonymizationOfDirectoriesAndFiles.py:124-129 | a rename to a free name keeps names distinct, and the reverse rename takes it back |
| `FileTree.ReplayRestores` | scripts/distructiveAnonymizationOfDirectoriesAndFiles.py:119-129 | replaying any log of renames backwards restores the tree |
| `FileTree.RenamesKeepShape` | scripts/distructiveAnonymizationOfDirectoriesAndFiles.py:128-129 | renames keep the shape of the tree and the contents of all files |
| `FileTree.SameShapeMeans` | scripts/distructiveAnonymizationOfDirectoriesAndFiles.py:128-129 | the same shape means: files with the same content, directories with the same number of entries, entry by entry of the same shape |
| `Anonymize.NewNameInjective` | scripts/distructiveAnonymizationOfDirectoriesAndFiles.py:112-117 | a new name determines kind and number, whatever extension is kept |
| `Anonymize.ExtensionIs` | scripts/distructiveAnonymizationOfDirectoriesAndFiles.py:99 | a name is a stem and its extension; the extension is empty if and only if there is no dot, and otherwise starts with the last dot |
| `Anonymize.TargetIs` | scripts/distructiveAnonymizationOfDirectoriesAndFiles.py:112-117 | a new name is f or d, then decimal digits of the number, six below a million and without a leading zero above, then for a file, unless extensions go, exactly its old extension |
| `Anonymize.WalkPostorder` | scripts/distructiveAnonymizationOfDirectoriesAndFiles.py:96 | no directory of the walk is at or below an earlier one |
| `Anonymize.WalkInOrder` | scripts/distructiveAnonymizationOfDirectoriesAndFiles.py:96 | of two directories the one below the other comes first, and otherwise the one whose path parts from the other at the earlier entry |
| `Anonymize.JobsInOrder` | scripts/distructiveAnonymizationOfDirectoriesAndFiles.py:98-131 | in a directory files come before directories, and entries of one kind in the order of the listing |
| `Anonymize.PlanCovers` | scripts/distructiveAnonymizationOfDirectoriesAndFiles.py:96-131 | the loops come to every entry below the root |
| `Anonymize.PlanOnce` | scripts/distructiveAnonymizationOfDirectoriesAndFiles.py:96-131 | and to none twice |
| `Anonymize.FreeNumber` | scripts/distructiveAnonymizationOfDirectoriesAndFiles.py:105-111 | fewer than n used numbers leave one of 1 to n free, so the random draw can always succeed |
| `Anonymize.NextNumber` | scripts/distructiveAnonymizationOfDirectoriesAndFiles.py:100-114 | a number from 1 to 1000000 that was not used before; fails exactly for the millionth entry |
| `Anonymize.RenameHere` | scripts/distructiveAnonymizationOfDirectoriesAndFiles.py:128-129 | in its own directory a rename changes the one name and nothing else |
| `Anonymize.RenameElsewhere` | scripts/distructiveAnonymizationOfDirectoriesAndFiles.py:128-129 | a rename leaves the listing of every directory not at or below its own alone |
| `Anonymize.RenameEntry` | scripts/distructiveAnonymizationOfDirectoriesAndFiles.py:98-129 | one entry that is there is renamed to a free name and logged, or the program ends because no number is left, or because the name with the next number is taken; only in the last case a line has been printed that the log does not have |
| `Anonymize.RenameKind` | scripts/distructiveAnonymizationOfDirectoriesAndFiles.py:131-157 | one loop over a directory renames its entries of one kind in order and leaves everything outside, or stops at one whose new name is in the directory |
| `Anonymize.RenameAll` | scripts/distructiveAnonymizationOfDirectoriesAndFiles.py:96-157 | every source is still there when its turn comes; the jobs done are the plan, or its part up to a stuck entry, and then every name in the way was given or belongs to an entry still to be renamed |
| `Anonymize.NoCollision` | scripts/distructiveAnonymizationOfDirectoriesAndFiles.py:124-126 | a new name is never one given earlier: it can only be taken if it was in the tree from the start |
| `Anonymize.EndsWhenCountable` | scripts/distructiveAnonymizationOfDirectoriesAndFiles.py:101-103 | on every tree where no number gives an entry the name of one still to be renamed next to it, any run, also a random one, gets to the end if and only if there are fewer than a million files and fewer than a million directories |
| `Anonymize.UnnumberedIsUnblockable` | scripts/distructiveAnonymizationOfDirectoriesAndFiles.py:112-126 | trees without numbered names are such trees |
| `Anonymize.StrayLine` | scripts/distructiveAnonymizationOfDirectoriesAndFiles.py:119-126 | the mapping printed by a run that met a taken name cannot be replayed backwards |
| `Anonymize.SameWaiting` | scripts/distructiveAnonymizationOfDirectoriesAndFiles.py:96-131 | the rest of the plan in a directory is exactly what the two loops over it have still to rename |
| `Anonymize.EndsWhenUnblocked` | scripts/distructiveAnonymizationOfDirectoriesAndFiles.py:100-157 | a sequential run gets to the end if and only if every entry has a number and its new name is not that of an entry of its directory still to be renamed, itself included |
| `Anonymize.Anonymize` | scripts/distructiveAnonymizationOfDirectoriesAndFiles.py:82-157 | every rename had its source and overwrote nothing, all new names differ, the log replayed backwards restores the tree, and the printed mapping does so if and only if it is the log, as it is for a complete run; shape and contents are kept, sequential numbers count from 1, a complete run renames every entry once, and the exact conditions for a run to be complete |

## Left out

- IEEE rounding: `double` is `real` in the numerical kernels; only the matrix product is stated for arbitrary operations.
- BT physics: flux formulas, Jacobians, `exact_solution` constants, `verify`, timers and printing; they are parameters of the run.
- BTKernels.PivotStage: the code unrolls the five pivots and their columns by hand; the model has loops with the same updates in the same order, and `BinvRhs` is the same elimination without columns of c.
- BTSweep.CallKernels: the kernels work in place on copies of the blocks of a cell, and the results are stored back; that C rows of one array could be passed twice is not modelled.
- BTRun.Solver.Run: grids with fewer than five points in a direction are excluded, since there the dissipation loops read outside the arrays (`Dissipation.FivePointsNeeded`); array padding is not modelled. The fluxes and blocks of a step are an arbitrary function of the grid, so that its fluxes at the exact grid are those of the forcing is a hypothesis; the warm-up step and the others run until a zero pivot, where the model stops and the code would go on with floating-point infinities.
- BTRun.Solver.ComputeRhs: the formula with squared Laplacians holds from six points on; with exactly five points along an axis the dissipation term is what the iterations there subtract (`BTDissipation.DampAxis`).
- BTRun.Solver.Initialize: the start values of the interior may be any; the interpolation formula that the program uses for them is not modelled.
- BTRun.Solver.ExactRhs: the exact solution is kept on a grid of its own instead of in a buffer for one line, and the loops over one direction run plane by plane.
- BTDissipation.DampAxis: with fewer than five points the loops read outside the arrays, and the model says nothing.
- Dgemm.GemmBlocked: `int` overflow of the index arithmetic is not modelled, and c is not aliased with a or b.
- LuFac.Factor: the order n is any number instead of the fixed 50; what division by zero yields in floating point is not modelled, the model stops there and reports it.
- Tridvpk.SolveLines: the order is any number of at least two instead of the fixed 100, and the three dimensions may differ.
- Coverage.TaskSet.TaskEncountered: says nothing about a call that uses a bucket outside the table (see `Coverage.BucketInRange`); allocation always succeeds, the table exists from the start instead of at the first call, and capacity does not overflow.
- Coverage.Reporter.ReportTask: the program exits when the file cannot be opened; the model has only the error of printing or flushing. The comment above the code speaks of four fields in a line, the code prints one string; the model follows the code.
- CoverageThreads.TraceIsFirsts: says nothing about a run after a bucket outside the table has been used; that is what `lost` records. Which calls have such runs is exact (`CoverageBounds.NeverLostExactly`).
- Charm.FixedPreserves: symbols are resolved, so a local variable that happens to be called `AMPI_globals` is not an issue here as it would be in the printed text; initializers of the moved declarations are ignored, as the source says of itself.
- CharmGlobals.GlobalScope.Move: that replacing or removing a statement fails when the statement is gone is an assumption about the library, whose source is not part of this model.
- CharmGlobals.GlobalScope.PutIntoStruct: its condition, no declaration with two variables, rests on that assumption.
- CharmAst.Ast.UseStruct: the list of all references is what the query library returns, each reference once; global variables of other files are not modelled.
- InterveneAst.Ast.Traverse: the order of nodes is what the traversal library provides; statements are not modelled, a reference that is a statement by itself belongs to no expression.
- SubstCopy.Specialises: the symbol-table insertion done by the `main` of the example is not modelled.
- DistVerifier.FinalResult: message transport loses and duplicates nothing; the analysis of a function is an arbitrary verdict and text.
- Anonymize.EndsWhenCountable: whether a random run gets to the end on a tree where some number would be blocked depends on the draws; for sequential runs `Anonymize.EndsWhenUnblocked` is exact on all trees.
- Anonymize.RenameAll: the walk is taken from the original tree, which by `Anonymize.RenameElsewhere` is what a lazy walk lists; symbolic links, dry run, quiet mode, summary and permissions are not modelled.
- Anonymize.Extension: an extension starts at the last dot, also if that is the first character, as in Python 2.5, which the script names; later versions of Python do not count leading dots.
- The other tutorial drivers, the ROSE front end, back end and query libraries, and the small text-processing scripts: they would only add easy members, or call code that is not in the repository.
