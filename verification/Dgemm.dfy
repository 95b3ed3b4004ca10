/**
 Matrix multiplication, `c := c + a * b`, on column-major arrays: the triple loop and the version that
 a loop optimizer made of it, blocked 16 by 16 and unrolled 16 times.

 Both are shown to leave the same array, for any addition and multiplication whatsoever: no law of
 arithmetic is used, so the equality holds for floating point to the last bit.
 */
module Dgemm {
  import opened LinAlg

  /** An element type with its addition and multiplication. */
  datatype Ring<!T> = Ring(add: (T, T) -> T, mul: (T, T) -> T)

  /** Where element `(i, j)` is stored: `j * n + i`, as a sum. */
  function Index(n: nat, i: nat, j: nat): (x: nat)
    ensures x >= i
  {
    if j == 0 then i else Index(n, i, j - 1) + n
  }

  lemma {:induction false} IndexIs(n: nat, i: nat, j: nat)
    ensures Index(n, i, j) == j * n + i
  {
    if j > 0 {
      IndexIs(n, i, j - 1);
      assert j * n == (j - 1) * n + n;
    }
  }

  /** The number of elements of an `n` by `n` matrix. */
  function Size(n: nat): nat {
    Index(n, 0, n)
  }

  /** Columns follow one another without overlap. */
  lemma {:induction false} ColumnsInOrder(n: nat, i: nat, j: nat, j': nat)
    requires i < n && j < j'
    ensures Index(n, i, j) < Index(n, 0, j')
    decreases j'
  {
    if j < j' - 1 {
      ColumnsInOrder(n, i, j, j' - 1);
    } else {
      SameColumn(n, i, j);
    }
  }

  lemma {:induction false} SameColumn(n: nat, i: nat, j: nat)
    ensures Index(n, i, j) == Index(n, 0, j) + i
  {
    if j > 0 {
      SameColumn(n, i, j - 1);
    }
  }

  lemma {:induction false} IndexInjective(n: nat, i: nat, j: nat, i': nat, j': nat)
    requires i < n && i' < n
    ensures Index(n, i, j) == Index(n, i', j') <==> i == i' && j == j'
  {
    SameColumn(n, i, j);
    SameColumn(n, i', j');
    if j < j' {
      ColumnsInOrder(n, i, j, j');
    } else if j' < j {
      ColumnsInOrder(n, i', j', j);
    }
  }

  /** Element `(i, j)` of `c` after the first `m` products have been added, in order. */
  function Acc<T>(r: Ring<T>, c: seq<T>, a: seq<T>, b: seq<T>, n: nat, i: nat, j: nat, m: nat): T
    requires i < n && j < n && m <= n && |a| >= Size(n) && |b| >= Size(n) && |c| >= Size(n)
  {
    ColumnsInOrder(n, i, j, n);
    if m == 0 then c[Index(n, i, j)]
    else
      ColumnsInOrder(n, i, m - 1, n);
      ColumnsInOrder(n, m - 1, j, n);
      r.add(Acc(r, c, a, b, n, i, j, m - 1), r.mul(a[Index(n, i, m - 1)], b[Index(n, m - 1, j)]))
  }

  /** `c` is `c0` with the first `count(i, j)` products added to every element `(i, j)`. */
  ghost predicate Holds<T>(r: Ring<T>, c: seq<T>, c0: seq<T>, a: seq<T>, b: seq<T>, n: nat, count: (nat, nat) -> nat)
    requires |a| >= Size(n) && |b| >= Size(n) && |c0| >= Size(n)
  {
    && |c| == |c0|
    && (forall i: nat, j: nat {:trigger count(i, j)} :: i < n && j < n ==>
          count(i, j) <= n && Index(n, i, j) < |c| &&
          c[Index(n, i, j)] == Acc(r, c0, a, b, n, i, j, count(i, j)))
    && (forall x :: Size(n) <= x < |c| ==> c[x] == c0[x])
  }

  /** Adding the next product to one element. */
  lemma {:induction false} HoldsNext<T>(r: Ring<T>, c: seq<T>, c0: seq<T>, a: seq<T>, b: seq<T>, n: nat,
                                        i: nat, j: nat, k: nat, count: (nat, nat) -> nat, next: (nat, nat) -> nat, v: T)
    requires |a| >= Size(n) && |b| >= Size(n) && |c0| >= Size(n) && i < n && j < n && k < n
    requires Holds(r, c, c0, a, b, n, count) && count(i, j) == k
    requires forall i': nat, j': nat :: i' < n && j' < n ==>
               next(i', j') == if i' == i && j' == j then k + 1 else count(i', j')
    requires v == Acc(r, c0, a, b, n, i, j, k + 1)
    ensures Index(n, i, j) < Size(n) && Holds(r, c[Index(n, i, j) := v], c0, a, b, n, next)
  {
    ColumnsInOrder(n, i, j, n);
    var x := Index(n, i, j);
    forall i': nat, j': nat | i' < n && j' < n
      ensures Index(n, i', j') < |c| && next(i', j') <= n
      ensures c[x := v][Index(n, i', j')] == Acc(r, c0, a, b, n, i', j', next(i', j'))
    {
      ColumnsInOrder(n, i', j', n);
      IndexInjective(n, i', j', i, j);
    }
  }

  /** `c[j*n+i] = c[j*n+i] + a[k*n+i] * b[j*n+k]`. */
  method Step<T>(r: Ring<T>, a: array<T>, b: array<T>, c: array<T>, n: nat, i: nat, j: nat, k: nat,
                 ghost c0: seq<T>, ghost count: (nat, nat) -> nat, ghost next: (nat, nat) -> nat)
    requires c != a && c != b && a.Length >= Size(n) && b.Length >= Size(n) && |c0| >= Size(n)
    requires i < n && j < n && k < n
    requires Holds(r, c[..], c0, a[..], b[..], n, count) && count(i, j) == k
    requires forall i': nat, j': nat :: i' < n && j' < n ==>
               next(i', j') == if i' == i && j' == j then k + 1 else count(i', j')
    modifies c
    ensures Holds(r, c[..], c0, a[..], b[..], n, next)
  {
    var ij, ik, kj := j * n + i, k * n + i, j * n + k;
    assert ij == Index(n, i, j) && ik == Index(n, i, k) && kj == Index(n, k, j) by {
      IndexIs(n, i, j);
      IndexIs(n, i, k);
      IndexIs(n, k, j);
    }
    ColumnsInOrder(n, i, j, n);
    ColumnsInOrder(n, i, k, n);
    ColumnsInOrder(n, k, j, n);
    var v := r.add(c[ij], r.mul(a[ik], b[kj]));
    HoldsNext(r, c[..], c0, a[..], b[..], n, i, j, k, count, next, v);
    ghost var now := c[..][ij := v];
    c[ij] := v;
    assert c[..] == now;
  }

  /** The complete product has been added everywhere. */
  ghost predicate IsProductSum<T>(r: Ring<T>, c: seq<T>, c0: seq<T>, a: seq<T>, b: seq<T>, n: nat)
    requires |a| >= Size(n) && |b| >= Size(n) && |c0| >= Size(n)
  {
    Holds(r, c, c0, a, b, n, (i, j) => n)
  }

  lemma Recount<T>(r: Ring<T>, c: seq<T>, c0: seq<T>, a: seq<T>, b: seq<T>, n: nat,
                                      count: (nat, nat) -> nat, next: (nat, nat) -> nat)
    requires |a| >= Size(n) && |b| >= Size(n) && |c0| >= Size(n)
    requires Holds(r, c, c0, a, b, n, count)
    requires forall i: nat, j: nat :: i < n && j < n ==> next(i, j) == count(i, j)
    ensures Holds(r, c, c0, a, b, n, next)
  {
  }

  lemma {:induction false} NothingAdded<T>(r: Ring<T>, c: seq<T>, a: seq<T>, b: seq<T>, n: nat)
    requires |a| >= Size(n) && |b| >= Size(n) && |c| >= Size(n)
    ensures Holds(r, c, c, a, b, n, (i, j) => 0)
  {
    var zero: (nat, nat) -> nat := (i, j) => 0;
    forall i: nat, j: nat | i < n && j < n
      ensures zero(i, j) <= n && Index(n, i, j) < |c| && c[Index(n, i, j)] == Acc(r, c, a, b, n, i, j, zero(i, j))
    {
      ColumnsInOrder(n, i, j, n);
    }
  }

  /** How far the simple loops have come: `k` rounds everywhere, one more before `(i, j)`. */
  function Simple(k: nat, j: nat, i: nat): (nat, nat) -> nat {
    (i', j') => if j' < j || (j' == j && i' < i) then k + 1 else k
  }

  /** The triple loop. */
  method GemmSimple<T>(r: Ring<T>, a: array<T>, b: array<T>, c: array<T>, n: nat)
    requires c != a && c != b && a.Length >= Size(n) && b.Length >= Size(n) && c.Length >= Size(n)
    modifies c
    ensures IsProductSum(r, c[..], old(c[..]), a[..], b[..], n)
  {
    ghost var c0 := c[..];
    NothingAdded(r, c0, a[..], b[..], n);
    Recount(r, c0, c0, a[..], b[..], n, (i, j) => 0, Simple(0, 0, 0));
    for k := 0 to n
      invariant Holds(r, c[..], c0, a[..], b[..], n, Simple(k, 0, 0))
    {
      for j := 0 to n
        invariant Holds(r, c[..], c0, a[..], b[..], n, Simple(k, j, 0))
      {
        for i := 0 to n
          invariant Holds(r, c[..], c0, a[..], b[..], n, Simple(k, j, i))
        {
          Step(r, a, b, c, n, i, j, k, c0, Simple(k, j, i), Simple(k, j, i + 1));
        }
        Recount(r, c[..], c0, a[..], b[..], n, Simple(k, j, n), Simple(k, j + 1, 0));
      }
      Recount(r, c[..], c0, a[..], b[..], n, Simple(k, n, 0), Simple(k + 1, 0, 0));
    }
    Recount(r, c[..], c0, a[..], b[..], n, Simple(n, 0, 0), (i, j) => n);
  }

  // ------------------------------------------------------------------ blocked and unrolled

  function Min(x: int, y: int): int {
    if x < y then x else y
  }

  /**
   How far the blocked loops have come at `_var_1 == kb`, `_var_0 == jb`: blocks of columns before `jb`
   have all rounds of the block `kb`, later ones none of them; inside the block, rows before `i` have
   all of them and row `i` has `k` rounds, one more before column `j`.
   */
  function Blocked(n: nat, kb: nat, jb: nat, i: nat, k: nat, j: nat): (nat, nat) -> nat {
    var all: nat := Cap(n, kb + 16);
    (i', j') =>
      if j' < jb then all
      else if j' >= jb + 16 || i' > i then kb
      else if i' < i then all
      else if j' < j then k + 1 else k
  }

  /** A count of rounds: `x`, but no more than `n`. */
  function Cap(n: nat, x: nat): nat {
    Min(x, n)
  }

  /** One update inside a block. */
  method BlockStep<T>(r: Ring<T>, a: array<T>, b: array<T>, c: array<T>, n: nat, i: nat, k: nat, j: nat,
                      ghost c0: seq<T>, ghost kb: nat, ghost jb: nat)
    requires c != a && c != b && a.Length >= Size(n) && b.Length >= Size(n) && |c0| >= Size(n)
    requires i < n && kb <= k < n && k < kb + 16 && jb <= j < n && j < jb + 16
    requires Holds(r, c[..], c0, a[..], b[..], n, Blocked(n, kb, jb, i, k, j))
    modifies c
    ensures Holds(r, c[..], c0, a[..], b[..], n, Blocked(n, kb, jb, i, k, j + 1))
  {
    Step(r, a, b, c, n, i, j, k, c0, Blocked(n, kb, jb, i, k, j), Blocked(n, kb, jb, i, k, j + 1));
  }

  /** A quarter of the unrolled body: four columns from `j` on. */
  method UnrolledQuarter<T>(r: Ring<T>, a: array<T>, b: array<T>, c: array<T>, n: nat, i: nat, k: nat, j: nat,
                         ghost c0: seq<T>, ghost kb: nat, ghost jb: nat)
    requires c != a && c != b && a.Length >= Size(n) && b.Length >= Size(n) && |c0| >= Size(n)
    requires i < n && kb <= k < n && k < kb + 16 && jb <= j <= jb + 12 && j + 4 <= n
    requires Holds(r, c[..], c0, a[..], b[..], n, Blocked(n, kb, jb, i, k, j))
    modifies c
    ensures Holds(r, c[..], c0, a[..], b[..], n, Blocked(n, kb, jb, i, k, j + 4))
  {
    var v := j;
    BlockStep(r, a, b, c, n, i, k, v, c0, kb, jb);
    v := 1 + v;
    BlockStep(r, a, b, c, n, i, k, v, c0, kb, jb);
    v := 1 + v;
    BlockStep(r, a, b, c, n, i, k, v, c0, kb, jb);
    v := 1 + v;
    BlockStep(r, a, b, c, n, i, k, v, c0, kb, jb);
  }

  /** The body that was unrolled sixteen times. */
  method Unrolled<T>(r: Ring<T>, a: array<T>, b: array<T>, c: array<T>, n: nat, i: nat, k: nat, j: nat,
                     ghost c0: seq<T>, ghost kb: nat, ghost jb: nat)
    requires c != a && c != b && a.Length >= Size(n) && b.Length >= Size(n) && |c0| >= Size(n)
    requires i < n && kb <= k < n && k < kb + 16 && j == jb && j + 16 <= n
    requires Holds(r, c[..], c0, a[..], b[..], n, Blocked(n, kb, jb, i, k, j))
    modifies c
    ensures Holds(r, c[..], c0, a[..], b[..], n, Blocked(n, kb, jb, i, k, j + 16))
  {
    UnrolledQuarter(r, a, b, c, n, i, k, j, c0, kb, jb);
    UnrolledQuarter(r, a, b, c, n, i, k, j + 4, c0, kb, jb);
    UnrolledQuarter(r, a, b, c, n, i, k, j + 8, c0, kb, jb);
    UnrolledQuarter(r, a, b, c, n, i, k, j + 12, c0, kb, jb);
  }

  /** The two loops over `j`: one unrolled round if the block is full, then the remainder. */
  method BlockRow<T>(r: Ring<T>, a: array<T>, b: array<T>, c: array<T>, n: nat, i: nat, k: nat,
                     ghost c0: seq<T>, ghost kb: nat, jb: nat)
    requires c != a && c != b && a.Length >= Size(n) && b.Length >= Size(n) && |c0| >= Size(n)
    requires i < n && kb <= k < n && k < kb + 16 && jb < n
    requires Holds(r, c[..], c0, a[..], b[..], n, Blocked(n, kb, jb, i, k, jb))
    modifies c
    ensures Holds(r, c[..], c0, a[..], b[..], n, Blocked(n, kb, jb, i, k + 1, jb))
  {
    var j := jb;
    while j <= Min(n - 16, jb)
      invariant j == jb || (j == jb + 16 && j <= n)
      invariant Holds(r, c[..], c0, a[..], b[..], n, Blocked(n, kb, jb, i, k, j))
    {
      Unrolled(r, a, b, c, n, i, k, j, c0, kb, jb);
      j := j + 16;
    }
    while j <= Min(n - 1, jb + 15)
      invariant jb <= j && (j <= n || j <= jb + 16)
      invariant Holds(r, c[..], c0, a[..], b[..], n, Blocked(n, kb, jb, i, k, j))
    {
      BlockStep(r, a, b, c, n, i, k, j, c0, kb, jb);
      j := j + 1;
    }
    Recount(r, c[..], c0, a[..], b[..], n, Blocked(n, kb, jb, i, k, j), Blocked(n, kb, jb, i, k + 1, jb));
  }

  /** All rows of one block. */
  method BlockRows<T>(r: Ring<T>, a: array<T>, b: array<T>, c: array<T>, n: nat, ghost c0: seq<T>, kb: nat, jb: nat)
    requires c != a && c != b && a.Length >= Size(n) && b.Length >= Size(n) && |c0| >= Size(n)
    requires kb < n && jb < n
    requires Holds(r, c[..], c0, a[..], b[..], n, Blocked(n, kb, jb, 0, kb, jb))
    modifies c
    ensures Holds(r, c[..], c0, a[..], b[..], n, Blocked(n, kb, jb + 16, 0, kb, jb + 16))
  {
    for i := 0 to n
      invariant Holds(r, c[..], c0, a[..], b[..], n, Blocked(n, kb, jb, i, kb, jb))
    {
      var k := kb;
      while k <= Min(n - 1, kb + 15)
        invariant kb <= k <= n && k <= kb + 16
        invariant Holds(r, c[..], c0, a[..], b[..], n, Blocked(n, kb, jb, i, k, jb))
      {
        BlockRow(r, a, b, c, n, i, k, c0, kb, jb);
        k := k + 1;
      }
      Recount(r, c[..], c0, a[..], b[..], n, Blocked(n, kb, jb, i, k, jb), Blocked(n, kb, jb, i + 1, kb, jb));
    }
    Recount(r, c[..], c0, a[..], b[..], n, Blocked(n, kb, jb, n, kb, jb), Blocked(n, kb, jb + 16, 0, kb, jb + 16));
  }

  /** The blocked and unrolled loops. */
  method GemmBlocked<T>(r: Ring<T>, a: array<T>, b: array<T>, c: array<T>, n: nat)
    requires c != a && c != b && a.Length >= Size(n) && b.Length >= Size(n) && c.Length >= Size(n)
    modifies c
    ensures IsProductSum(r, c[..], old(c[..]), a[..], b[..], n)
  {
    ghost var c0 := c[..];
    NothingAdded(r, c0, a[..], b[..], n);
    Recount(r, c0, c0, a[..], b[..], n, (i, j) => 0, Blocked(n, 0, 0, 0, 0, 0));
    var kb := 0;
    while kb <= -1 + n
      invariant Holds(r, c[..], c0, a[..], b[..], n, Blocked(n, Cap(n, kb), 0, 0, Cap(n, kb), 0))
    {
      var jb := 0;
      while jb <= -1 + n
        invariant Holds(r, c[..], c0, a[..], b[..], n, Blocked(n, kb, jb, 0, kb, jb))
      {
        BlockRows(r, a, b, c, n, c0, kb, jb);
        jb := jb + 16;
      }
      Recount(r, c[..], c0, a[..], b[..], n, Blocked(n, kb, jb, 0, kb, jb),
              Blocked(n, Cap(n, kb + 16), 0, 0, Cap(n, kb + 16), 0));
      kb := kb + 16;
    }
    Recount(r, c[..], c0, a[..], b[..], n, Blocked(n, n, 0, 0, n, 0), (i, j) => n);
  }

  // ------------------------------------------------------------------ what they agree on

  /** Every position below `Index(n, 0, m)` is some element `(i, j)`. */
  lemma {:induction false} Locate(n: nat, x: nat, m: nat) returns (i: nat, j: nat)
    requires x < Index(n, 0, m)
    ensures i < n && j < m && x == Index(n, i, j)
  {
    if x < Index(n, 0, m - 1) {
      i, j := Locate(n, x, m - 1);
    } else {
      i, j := x - Index(n, 0, m - 1), m - 1;
      SameColumn(n, i, j);
    }
  }

  /** The complete sum is determined, so both loop nests leave the same array. */
  lemma {:induction false} SameArray<T>(r: Ring<T>, c: seq<T>, c': seq<T>, c0: seq<T>, a: seq<T>, b: seq<T>, n: nat)
    requires |a| >= Size(n) && |b| >= Size(n) && |c0| >= Size(n)
    requires IsProductSum(r, c, c0, a, b, n) && IsProductSum(r, c', c0, a, b, n)
    ensures c == c'
  {
    var full: (nat, nat) -> nat := (i, j) => n;
    forall x | 0 <= x < |c| ensures c[x] == c'[x] {
      if x < Size(n) {
        var i, j := Locate(n, x, n);
        assert full(i, j) == n;
      }
    }
  }

  function RowOf(a: seq<real>, n: nat, i: nat): (v: Vec)
    requires i < n && |a| >= Size(n)
    ensures |v| == n
  {
    seq(n, k requires 0 <= k < n => ColumnsInOrder(n, i, k, n); a[Index(n, i, k)])
  }

  function ColumnOf(b: seq<real>, n: nat, j: nat): (v: Vec)
    requires j < n && |b| >= Size(n)
    ensures |v| == n
  {
    seq(n, k requires 0 <= k < n => ColumnsInOrder(n, k, j, n); b[Index(n, k, j)])
  }

  lemma {:induction false} AccLast(r: Ring<real>, c: seq<real>, a: seq<real>, b: seq<real>, n: nat, i: nat, j: nat, m: nat)
    requires i < n && j < n && m < n && |a| >= Size(n) && |b| >= Size(n) && |c| >= Size(n)
    ensures Acc(r, c, a, b, n, i, j, m + 1) == r.add(Acc(r, c, a, b, n, i, j, m), r.mul(RowOf(a, n, i)[m], ColumnOf(b, n, j)[m]))
  {
    ColumnsInOrder(n, i, j, n);
    ColumnsInOrder(n, i, m, n);
    ColumnsInOrder(n, m, j, n);
    assert RowOf(a, n, i)[m] == a[Index(n, i, m)];
    assert ColumnOf(b, n, j)[m] == b[Index(n, m, j)];
  }

  lemma DotStep(u: Vec, v: Vec, m: nat)
    requires m < |u| && m < |v|
    ensures DotTo(u, v, m + 1) == DotTo(u, v, m) + u[m] * v[m]
  {
  }

  ghost predicate IsReal(r: Ring<real>) {
    && (forall x, y :: r.add(x, y) == x + y)
    && (forall x, y :: r.mul(x, y) == x * y)
  }

  /** Over the reals, element `(i, j)` grows by the product of row `i` of `a` and column `j` of `b`. */
  lemma {:induction false} AccIsDot(r: Ring<real>, c: seq<real>, a: seq<real>, b: seq<real>, n: nat, i: nat, j: nat, m: nat)
    requires i < n && j < n && m <= n && |a| >= Size(n) && |b| >= Size(n) && |c| >= Size(n)
    requires IsReal(r)
    ensures Index(n, i, j) < |c|
    ensures Acc(r, c, a, b, n, i, j, m) == c[Index(n, i, j)] + DotTo(RowOf(a, n, i), ColumnOf(b, n, j), m)
  {
    ColumnsInOrder(n, i, j, n);
    if m > 0 {
      AccIsDot(r, c, a, b, n, i, j, m - 1);
      AccLast(r, c, a, b, n, i, j, m - 1);
      DotStep(RowOf(a, n, i), ColumnOf(b, n, j), m - 1);
    }
  }
}
