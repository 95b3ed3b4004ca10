/**
 The coverage runtime: a chained hash set of the task strings met so far, and the report that prints
 each of them once.  The table doubles when it is three quarters full; the cells are not copied then
 but relinked in place.
 */
module Coverage {

  /** A C string: signed characters without the terminating zero. */
  type CString = s: seq<int> | forall i :: 0 <= i < |s| ==> -128 <= s[i] <= 127 && s[i] != 0 witness []

  const UINT_RANGE := 0x1_0000_0000
  const INT_LIMIT := 0x8000_0000

  /** The capacity of the first table. */
  const INITIAL_CAPACITY := 64

  // ------------------------------------------------------------------ hashing

  function Sum(s: CString): int {
    if s == [] then 0 else Sum(s[..|s| - 1]) + s[|s| - 1]
  }

  /** `hash_value`: the sum of the characters in unsigned 32-bit arithmetic. */
  function HashValue(s: CString): (h: int)
    ensures 0 <= h < UINT_RANGE
  {
    Sum(s) % UINT_RANGE
  }

  /** The same value stored in an `int`. */
  function HashCode(s: CString): int {
    if HashValue(s) < INT_LIMIT then HashValue(s) else HashValue(s) - UINT_RANGE
  }

  /** The remainder operator of C, which truncates. */
  function CRemainder(x: int, m: int): int
    requires m > 0
  {
    if x >= 0 then x % m else -((-x) % m)
  }

  /** `hashCode % capacity`. */
  function Bucket(s: CString, capacity: int): int
    requires capacity > 0
  {
    CRemainder(HashCode(s), capacity)
  }

  /** The bucket is a place in a table of the given size. */
  predicate InTable(s: CString, capacity: int) {
    capacity > 0 && 0 <= Bucket(s, capacity) < capacity
  }

  lemma {:induction false} SumAppend(s: CString, t: CString)
    ensures Sum(s + t) == Sum(s) + Sum(t)
  {
    if t == [] {
      assert s + t == s;
    } else {
      var init := t[..|t| - 1];
      assert (s + t)[..|s + t| - 1] == s + init;
      SumAppend(s, init);
    }
  }

  lemma {:induction false} ModSum(x: int, y: int, m: int)
    requires m > 0
    ensures (x + y) % m == (x % m + y % m) % m
  {
    var p, q := x / m, y / m;
    assert x == m * p + x % m && y == m * q + y % m;
    assert x + y == m * (p + q) + (x % m + y % m);
    ModShift(m, p + q, x % m + y % m);
  }

  lemma {:induction false} ModShift(m: int, q: int, r: int)
    requires m > 0
    ensures (m * q + r) % m == r % m
  {
    var a, b := (m * q + r) / m, r / m;
    var d := q + b - a;
    assert m * d == m * q + m * b - m * a;
    assert (m * q + r) % m - r % m == m * d;
    Magnitude(m, d);
  }

  /** Characters are counted with their sign, and the values of the parts of a string add up. */
  lemma {:induction false} HashAdds(s: CString, t: CString)
    ensures HashValue([]) == 0
    ensures |s| == 1 ==> HashValue(s) == s[0] % UINT_RANGE
    ensures HashValue(s + t) == (HashValue(s) + HashValue(t)) % UINT_RANGE
  {
    SumAppend(s, t);
    ModSum(Sum(s), Sum(t), UINT_RANGE);
    if |s| == 1 {
      assert Sum(s) == Sum(s[..0]) + s[0];
    }
  }

  /** The code is the value of the hash that an `int` can hold. */
  lemma {:induction false} HashCodeIs(s: CString)
    ensures -INT_LIMIT <= HashCode(s) < INT_LIMIT
    ensures HashCode(s) % UINT_RANGE == HashValue(s)
  {
    if HashValue(s) >= INT_LIMIT {
      ModShift(UINT_RANGE, -1, HashValue(s));
    }
  }

  /** The index is the remainder with the sign of the code. */
  lemma {:induction false} BucketIs(s: CString, capacity: int) returns (q: int)
    requires capacity > 0
    ensures HashCode(s) == capacity * q + Bucket(s, capacity)
    ensures -capacity < Bucket(s, capacity) < capacity
    ensures if HashCode(s) >= 0 then Bucket(s, capacity) >= 0 else Bucket(s, capacity) <= 0
  {
    var x := HashCode(s);
    if x >= 0 {
      q := x / capacity;
    } else {
      q := -((-x) / capacity);
      assert -x == capacity * ((-x) / capacity) + (-x) % capacity;
      assert capacity * q == -(capacity * ((-x) / capacity));
    }
  }

  /** The loop of `hash_value`. */
  method ComputeHash(s: CString) returns (h: int)
    ensures h == HashValue(s)
  {
    h := 0;
    for i := 0 to |s|
      invariant h == Sum(s[..i]) % UINT_RANGE
    {
      assert s[..i + 1][..i] == s[..i];
      h := (h + s[i]) % UINT_RANGE;
    }
    assert s[..|s|] == s;
  }

  /** `hashCode % capacity`, by way of the stored `int`. */
  method ComputeBucket(s: CString, capacity: int) returns (index: int)
    requires capacity > 0
    ensures index == Bucket(s, capacity)
  {
    var hash := ComputeHash(s);
    var hashCode := if hash < INT_LIMIT then hash else hash - UINT_RANGE;
    index := CRemainder(hashCode, capacity);
  }

  /** The bucket is a place in the table exactly if the code is not negative, or happens to divide evenly. */
  lemma {:induction false} BucketInRange(s: CString, capacity: int)
    requires capacity > 0
    ensures InTable(s, capacity) <==> HashCode(s) >= 0 || HashCode(s) % capacity == 0
  {
    var x := HashCode(s);
    if x < 0 {
      assert (-x) % capacity == 0 <==> x % capacity == 0 by {
        NegatedMultiple(x, capacity);
      }
    }
  }

  /** A string of one character, minus one, leaves the first table on the left. */
  lemma {:induction false} NegativeExample()
    ensures HashCode([-1]) == -1 && Bucket([-1], INITIAL_CAPACITY) == -1 && !InTable([-1], INITIAL_CAPACITY)
  {
    assert Sum([-1]) == Sum([-1][..0]) + -1;
  }

  lemma {:induction false} NegatedMultiple(x: int, m: int)
    requires m > 0
    ensures (-x) % m == 0 <==> x % m == 0
  {
    var q, p := x / m, (-x) / m;
    if x % m == 0 {
      assert -x == m * (-q);
      Multiple(-q, m);
    }
    if (-x) % m == 0 {
      assert x == m * (-p);
      Multiple(-p, m);
    }
  }

  lemma {:induction false} Multiple(q: int, m: int)
    requires m > 0
    ensures (m * q) % m == 0
  {
    var d := q - (m * q) / m;
    assert (m * q) % m == m * d;
    Magnitude(m, d);
  }

  lemma Magnitude(m: int, d: int)
    requires m > 0
    ensures d >= 1 ==> m * d >= m
    ensures d <= -1 ==> m * d <= -m
  {
  }

  lemma {:induction false} SumBounds(s: CString)
    requires forall i :: 0 <= i < |s| ==> s[i] > 0
    ensures 0 <= Sum(s) <= 127 * |s|
  {
    if s != [] {
      SumBounds(s[..|s| - 1]);
    }
  }

  /** Seven-bit strings of any length a program can hold are safe. */
  lemma {:induction false} SevenBitIsSafe(s: CString)
    requires forall i :: 0 <= i < |s| ==> s[i] > 0
    requires 127 * |s| < INT_LIMIT
    ensures HashCode(s) == Sum(s) >= 0
  {
    SumBounds(s);
  }

  // ------------------------------------------------------------------ the table

  class Cell {
    var next: Cell?
    const str: CString

    constructor (s: CString, n: Cell?)
      ensures str == s && next == n
    {
      str, next := s, n;
    }
  }

  /** The cell that follows position `i` of a list; none after the last. */
  function Follower(c: seq<Cell>, i: nat): Cell? {
    if i + 1 < |c| then c[i + 1] else null
  }

  /** `head` starts a list that runs through exactly the cells of `c`. */
  ghost predicate Linked(head: Cell?, c: seq<Cell>)
    reads c
  {
    && head == (if c == [] then null else c[0])
    && forall i: nat {:trigger Follower(c, i)} :: i < |c| ==> c[i].next == Follower(c, i)
  }

  lemma {:induction false} LinkedTail(head: Cell?, c: seq<Cell>)
    requires Linked(head, c) && c != []
    ensures Linked(c[0].next, c[1..])
  {
    var t := c[1..];
    assert c[0].next == Follower(c, 0);
    forall i: nat | i < |t| ensures t[i].next == Follower(t, i) {
      assert c[i + 1].next == Follower(c, i + 1);
    }
  }

  lemma {:induction false} LinkedCons(first: Cell, head: Cell?, c: seq<Cell>)
    requires Linked(head, c) && first.next == head
    ensures Linked(first, [first] + c)
  {
    var t := [first] + c;
    forall i: nat | i < |t| ensures t[i].next == Follower(t, i) {
      if i > 0 {
        assert c[i - 1].next == Follower(c, i - 1);
      }
    }
  }

  ghost predicate Has(x: seq<seq<Cell>>, b: int, i: int) {
    0 <= b < |x| && 0 <= i < |x[b]|
  }

  ghost function CellAt(x: seq<seq<Cell>>, b: int, i: int): Cell
    requires Has(x, b, i)
  {
    x[b][i]
  }

  ghost function Cells(x: seq<seq<Cell>>): set<Cell> {
    set b, i | 0 <= b < |x| && 0 <= i < |x[b]| :: x[b][i]
  }

  /** No cell occurs twice. */
  ghost predicate Distinct(x: seq<seq<Cell>>) {
    forall b, i, b', i' {:trigger CellAt(x, b, i), CellAt(x, b', i')} ::
      Has(x, b, i) && Has(x, b', i') && CellAt(x, b, i) == CellAt(x, b', i') ==> b == b' && i == i'
  }

  ghost predicate AllLinked(heads: seq<Cell?>, x: seq<seq<Cell>>)
    reads Cells(x)
  {
    |heads| == |x| && forall b :: 0 <= b < |x| ==> Linked(heads[b], x[b])
  }

  /** Every cell is in the chain that its string hashes to. */
  ghost predicate Hashed(x: seq<seq<Cell>>) {
    forall b, i {:trigger CellAt(x, b, i)} :: Has(x, b, i) ==> WellPlaced(CellAt(x, b, i).str, |x|, b)
  }

  predicate WellPlaced(s: CString, capacity: nat, b: int) {
    capacity > 0 && Bucket(s, capacity) == b
  }

  ghost predicate Unique(cells: set<Cell>) {
    forall c, d :: c in cells && d in cells && c.str == d.str ==> c == d
  }

  ghost function Strings(cells: set<Cell>): set<CString> {
    set c | c in cells :: c.str
  }

  lemma {:induction false} CellsPrepend(x: seq<seq<Cell>>, b: nat, c: Cell)
    requires b < |x|
    ensures Cells(x[b := [c] + x[b]]) == Cells(x) + {c}
  {
    var y := x[b := [c] + x[b]];
    forall d | d in Cells(x) ensures d in Cells(y) {
      var b', i :| 0 <= b' < |x| && 0 <= i < |x[b']| && x[b'][i] == d;
      assert y[b'][if b' == b then i + 1 else i] == d;
    }
    forall d | d in Cells(y) ensures d in Cells(x) + {c} {
      var b', i :| 0 <= b' < |y| && 0 <= i < |y[b']| && y[b'][i] == d;
      if b' != b || i > 0 {
        assert x[b'][if b' == b then i - 1 else i] == d;
      }
    }
    assert y[b][0] == c;
  }

  lemma {:induction false} CellsDrop(x: seq<seq<Cell>>, b: nat)
    requires b < |x| && x[b] != [] && Distinct(x)
    ensures Cells(x[b := x[b][1..]]) == Cells(x) - {x[b][0]}
    ensures Distinct(x[b := x[b][1..]])
  {
    var y := x[b := x[b][1..]];
    assert CellAt(x, b, 0) == x[b][0];
    forall d | d in Cells(x) && d != x[b][0] ensures d in Cells(y) {
      var b', i :| 0 <= b' < |x| && 0 <= i < |x[b']| && x[b'][i] == d;
      assert y[b'][if b' == b then i - 1 else i] == d;
    }
    forall d | d in Cells(y) ensures d in Cells(x) && d != x[b][0] {
      var b', i :| 0 <= b' < |y| && 0 <= i < |y[b']| && y[b'][i] == d;
      assert x[b'][if b' == b then i + 1 else i] == d == CellAt(x, b', if b' == b then i + 1 else i);
    }
    forall p, i, p', i' | Has(y, p, i) && Has(y, p', i') && CellAt(y, p, i) == CellAt(y, p', i')
      ensures p == p' && i == i'
    {
      assert CellAt(y, p, i) == CellAt(x, p, if p == b then i + 1 else i);
      assert CellAt(y, p', i') == CellAt(x, p', if p' == b then i' + 1 else i');
    }
  }

  lemma {:induction false} DistinctPrepend(x: seq<seq<Cell>>, b: nat, c: Cell)
    requires b < |x| && Distinct(x) && c !in Cells(x)
    ensures Distinct(x[b := [c] + x[b]])
  {
    var y := x[b := [c] + x[b]];
    forall p, i, p', i' | Has(y, p, i) && Has(y, p', i') && CellAt(y, p, i) == CellAt(y, p', i')
      ensures p == p' && i == i'
    {
      assert (p == b && i == 0) || CellAt(y, p, i) == CellAt(x, p, if p == b then i - 1 else i);
      assert (p' == b && i' == 0) || CellAt(y, p', i') == CellAt(x, p', if p' == b then i' - 1 else i');
    }
  }

  lemma {:induction false} HashedPrepend(x: seq<seq<Cell>>, b: nat, c: Cell)
    requires b < |x| && Hashed(x) && WellPlaced(c.str, |x|, b)
    ensures Hashed(x[b := [c] + x[b]])
  {
    var y: seq<seq<Cell>> := x[b := [c] + x[b]];
    forall p, i | Has(y, p, i) ensures WellPlaced(CellAt(y, p, i).str, |y|, p) {
      assert (p == b && i == 0) || CellAt(y, p, i) == CellAt(x, p, if p == b then i - 1 else i);
    }
  }

  /** Moving the first cell of chain `b` of `x` to the front of chain `k` of `y`. */
  lemma {:induction false} MoveCell(x: seq<seq<Cell>>, b: nat, y: seq<seq<Cell>>, k: nat)
    requires b < |x| && k < |y| && x[b] != []
    requires Distinct(x) && Distinct(y) && Cells(x) !! Cells(y) && Hashed(y)
    requires WellPlaced(x[b][0].str, |y|, k)
    ensures var x', y' := x[b := x[b][1..]], y[k := [x[b][0]] + y[k]];
            && Distinct(x') && Distinct(y') && Cells(x') !! Cells(y') && Hashed(y')
            && Cells(x') + Cells(y') == Cells(x) + Cells(y)
  {
    var c := x[b][0];
    assert c in Cells(x);
    CellsDrop(x, b);
    CellsPrepend(y, k, c);
    DistinctPrepend(y, k, c);
    HashedPrepend(y, k, c);
  }

  /** The report: once an error has occurred nothing more is printed. */
  class Reporter {
    var failed: bool
    var emitted: seq<CString>

    constructor ()
      ensures !failed && emitted == []
    {
      failed, emitted := false, [];
    }

    /** `reportTask`; `ok` is whether printing and flushing succeed. */
    method ReportTask(s: CString, ok: bool)
      modifies this
      ensures failed == (old(failed) || !ok)
      ensures emitted == if !old(failed) && ok then old(emitted) + [s] else old(emitted)
    {
      if !failed {
        if ok {
          emitted := emitted + [s];
        } else {
          failed := true;
        }
      }
    }
  }

  /** The statics of `taskEncountered`. */
  class TaskSet {
    var capacity: int
    var table: array<Cell?>
    var setSize: int
    ghost var chains: seq<seq<Cell>>

    /** The table is a hash set, however full. */
    ghost predicate Sound()
      reads this, table, Cells(chains)
    {
      && capacity == table.Length == |chains| > 0
      && AllLinked(table[..], chains)
      && Distinct(chains) && Hashed(chains) && Unique(Cells(chains))
      && setSize == |Cells(chains)|
    }

    /** ... and at most three quarters full. */
    ghost predicate Valid()
      reads this, table, Cells(chains)
    {
      Sound() && 4 * setSize <= 3 * capacity
    }

    /** The strings met so far. */
    ghost function Contents(): set<CString>
      reads this
    {
      Strings(Cells(chains))
    }

    constructor (initialCapacity: int)
      requires initialCapacity > 0
      ensures Valid() && Contents() == {} && Cells(chains) == {} && capacity == initialCapacity && fresh(table)
    {
      capacity := initialCapacity;
      table := new Cell?[initialCapacity](_ => null);
      setSize := 0;
      chains := seq(initialCapacity, _ => []);
    }

    /** The loop over one bucket agrees with membership in the whole set. */
    method Lookup(s: CString) returns (found: bool)
      requires Valid() && InTable(s, capacity)
      ensures found <==> s in Contents()
    {
      var index := ComputeBucket(s, capacity);
      assert Linked(table[..][index], chains[index]);
      found := FindInChain(table[index], chains[index], s);
      OneBucketSuffices(chains, s);
    }

    /** A new cell at the head of its list. */
    method Insert(s: CString)
      requires Sound() && InTable(s, capacity) && s !in Contents()
      modifies this, table
      ensures Sound() && Contents() == old(Contents()) + {s}
      ensures capacity == old(capacity) && table == old(table) && setSize == old(setSize) + 1
      ensures fresh(Cells(chains) - old(Cells(chains)))
    {
      var index := ComputeBucket(s, capacity);
      OneBucketSuffices(chains, s);
      chains := PutNew(table, index, s, chains);
      setSize := setSize + 1;
    }

    /** Double the table and relink every cell. */
    method Resize()
      requires Sound() && forall s :: s in Contents() ==> InTable(s, 2 * capacity)
      modifies this, Cells(chains)
      ensures Sound() && Contents() == old(Contents())
      ensures capacity == 2 * old(capacity) && setSize == old(setSize)
      ensures Cells(chains) == old(Cells(chains)) && fresh(table)
    {
      forall c | c in Cells(chains) ensures InTable(c.str, 2 * capacity) {
        assert c.str in Contents();
      }
      var newCapacity := capacity * 2;
      var newTable;
      ghost var y;
      newTable, y := Rehash(table, newCapacity, chains);
      table, capacity, chains := newTable, newCapacity, y;
    }

    /** Every access to the table that the addition of a new string causes is within bounds. */
    ghost predicate Storable(s: CString)
      reads this
    {
      InTable(s, capacity) && (Grows(|Contents() + {s}|, capacity) ==> FitAll(Contents() + {s}, 2 * capacity))
    }

    /** Adds a string that was not found, and resizes the table if it has become too full. */
    method Store(s: CString)
      requires Valid() && s !in Contents() && Storable(s)
      modifies this, table, Cells(chains)
      ensures Valid() && Contents() == old(Contents()) + {s}
      ensures capacity == if 4 * |Contents()| > 3 * old(capacity) then 2 * old(capacity) else old(capacity)
      ensures table == old(table) || fresh(table)
      ensures fresh(Cells(chains) - old(Cells(chains)))
    {
      Insert(s);
      StringCount(Cells(chains));
      if 4 * setSize > 3 * capacity {
        Resize();
      }
    }

    /** The rest of `taskEncountered` for a string that was not found. */
    method FirstEncounter(s: CString, reporter: Reporter, ok: bool)
      requires Valid() && s !in Contents() && Storable(s)
      modifies this, table, Cells(chains), reporter
      ensures Valid() && Contents() == old(Contents()) + {s}
      ensures reporter.failed == (old(reporter.failed) || !ok)
      ensures reporter.emitted == if !old(reporter.failed) && ok then old(reporter.emitted) + [s] else old(reporter.emitted)
      ensures capacity == if 4 * |Contents()| > 3 * old(capacity) then 2 * old(capacity) else old(capacity)
      ensures table == old(table) || fresh(table)
      ensures fresh(Cells(chains) - old(Cells(chains)))
    {
      reporter.ReportTask(s, ok);
      ghost var cells := Cells(chains);
      assert Valid() && chains == old(chains) && cells == old(Cells(chains)) && Storable(s);
      Store(s);
      assert fresh(Cells(chains) - cells);
    }

    /**
     `taskEncountered`: a string met for the first time is reported and added, any other is ignored.
     `ok` is whether the print succeeds, if there is one.
     */
    method TaskEncountered(s: CString, reporter: Reporter, ok: bool)
      requires Valid() && InTable(s, capacity) && (s in Contents() || Storable(s))
      modifies this, table, Cells(chains), reporter
      ensures Valid() && Contents() == old(Contents()) + {s}
      ensures s in old(Contents()) ==> reporter.failed == old(reporter.failed) && reporter.emitted == old(reporter.emitted)
      ensures s !in old(Contents()) ==>
                && reporter.failed == (old(reporter.failed) || !ok)
                && reporter.emitted == if !old(reporter.failed) && ok then old(reporter.emitted) + [s] else old(reporter.emitted)
      ensures capacity == if s !in old(Contents()) && 4 * |Contents()| > 3 * old(capacity) then 2 * old(capacity) else old(capacity)
      ensures table == old(table) || fresh(table)
      ensures fresh(Cells(chains) - old(Cells(chains)))
    {
      var found := Lookup(s);
      if found {
        assert Contents() == old(Contents()) + {s};
        return;
      }
      FirstEncounter(s, reporter, ok);
    }
  }

  /** More than three quarters full. */
  predicate Grows(size: nat, capacity: int) {
    4 * size > 3 * capacity
  }

  predicate FitAll(strings: set<CString>, capacity: int) {
    forall s :: s in strings ==> InTable(s, capacity)
  }

  /** Different cells hold different strings, so there are as many of both. */
  lemma {:induction false} StringCount(cells: set<Cell>)
    requires Unique(cells)
    ensures |Strings(cells)| == |cells|
  {
    if cells != {} {
      var c :| c in cells;
      StringCount(cells - {c});
      assert Strings(cells) == Strings(cells - {c}) + {c.str};
    }
  }

  /** A table of another size with the same cells. */
  method Rehash(table: array<Cell?>, newCapacity: nat, ghost x: seq<seq<Cell>>) returns (newTable: array<Cell?>, ghost y: seq<seq<Cell>>)
    requires newCapacity > 0 && AllLinked(table[..], x) && Distinct(x) && Hashed(x)
    requires forall c :: c in Cells(x) ==> InTable(c.str, newCapacity)
    modifies Cells(x)
    ensures fresh(newTable) && newTable.Length == |y| == newCapacity
    ensures AllLinked(newTable[..], y) && Distinct(y) && Hashed(y) && Cells(y) == Cells(x)
  {
    newTable := new Cell?[newCapacity](_ => null);
    y := seq(newCapacity, _ => []);
    NothingMoved(table[..], x, newTable, y);
    y := Relink(table, newTable, x, y, Cells(x));
  }

  /** The loops of the resize: every list of the old table in turn. */
  method Relink(table: array<Cell?>, newTable: array<Cell?>, ghost x0: seq<seq<Cell>>, ghost y0: seq<seq<Cell>>, ghost all: set<Cell>)
    returns (ghost y: seq<seq<Cell>>)
    requires table != newTable && newTable.Length > 0 && Moving(table[..], x0, newTable, y0, all)
    modifies newTable, all
    ensures AllLinked(newTable[..], y) && Distinct(y) && Hashed(y) && Cells(y) == all && |y| == |y0|
  {
    ghost var heads, x, was := table[..], x0, table[..];
    y := y0;
    for i := 0 to table.Length
      invariant |x| == |heads| == table.Length && |y| == |y0| && table[..] == was
      invariant Moving(heads, x, newTable, y, all)
      invariant forall b :: 0 <= b < i ==> x[b] == []
      invariant forall b :: i <= b < table.Length ==> heads[b] == was[b]
    {
      forall c | c in x[i] ensures c in all {
        var j :| 0 <= j < |x[i]| && x[i][j] == c;
        assert x[i][j] in Cells(x);
      }
      heads, x, y := Drain(table[i], newTable, heads, x, y, i, all);
    }
    assert Cells(x) == {};
  }

  lemma {:induction false} NothingMoved(heads: seq<Cell?>, x: seq<seq<Cell>>, newTable: array<Cell?>, y: seq<seq<Cell>>)
    requires AllLinked(heads, x) && Distinct(x) && Hashed(x)
    requires |y| == newTable.Length && (forall b :: 0 <= b < |y| ==> y[b] == [] && newTable[b] == null)
    requires forall c :: c in Cells(x) ==> InTable(c.str, newTable.Length)
    ensures Moving(heads, x, newTable, y, Cells(x))
  {
    assert Cells(y) == {};
  }

  /** A new cell at the head of one list. */
  method PutNew(table: array<Cell?>, index: nat, s: CString, ghost x: seq<seq<Cell>>) returns (ghost y: seq<seq<Cell>>)
    requires index < table.Length && AllLinked(table[..], x) && Distinct(x) && Hashed(x) && Unique(Cells(x))
    requires WellPlaced(s, |x|, index) && s !in Strings(Cells(x))
    modifies table
    ensures AllLinked(table[..], y) && Distinct(y) && Hashed(y) && Unique(Cells(y)) && |y| == |x|
    ensures |Cells(y)| == |Cells(x)| + 1 && Strings(Cells(y)) == Strings(Cells(x)) + {s} && fresh(Cells(y) - Cells(x))
  {
    var newOne := new Cell(s, table[index]);
    InsertCell(x, index, newOne);
    PutHead(table, index, newOne, x);
    y := x[index := [newOne] + x[index]];
  }

  /** A new head for one list. */
  method PutHead(table: array<Cell?>, index: nat, c: Cell, ghost x: seq<seq<Cell>>)
    requires index < table.Length && AllLinked(table[..], x) && c !in Cells(x) && c.next == table[index]
    modifies table
    ensures AllLinked(table[..], x[index := [c] + x[index]])
  {
    ghost var y := x[index := [c] + x[index]];
    ghost var was := table[..];
    LinkedCons(c, was[index], x[index]);
    table[index] := c;
    forall b | 0 <= b < |y| ensures Linked(table[..][b], y[b]) {
      assert b != index ==> Linked(was[b], x[b]);
    }
  }

  /**
   In the middle of a resize: the cells are shared out between what is left of the old lists, `x`,
   and the new lists, `y`.
   */
  ghost predicate Moving(heads: seq<Cell?>, x: seq<seq<Cell>>, newTable: array<Cell?>, y: seq<seq<Cell>>, all: set<Cell>)
    reads newTable, Cells(x), Cells(y)
  {
    && AllLinked(heads, x) && AllLinked(newTable[..], y)
    && Distinct(x) && Distinct(y) && Cells(x) !! Cells(y) && Cells(x) + Cells(y) == all
    && Hashed(y) && forall c :: c in all ==> InTable(c.str, newTable.Length)
  }

  /** The body of the innermost loop of the resize. */
  method MoveOne(iter: Cell, newTable: array<Cell?>, ghost heads: seq<Cell?>, ghost x: seq<seq<Cell>>, ghost y: seq<seq<Cell>>,
                 ghost i: nat, ghost all: set<Cell>)
    returns (next: Cell?, ghost heads': seq<Cell?>, ghost x': seq<seq<Cell>>, ghost y': seq<seq<Cell>>)
    requires newTable.Length > 0 && i < |x| && x[i] != [] && iter == x[i][0]
    requires Moving(heads, x, newTable, y, all)
    modifies iter, newTable
    ensures Moving(heads', x', newTable, y', all)
    ensures heads' == heads[i := next] && x' == x[i := x[i][1..]] && |y'| == |y|
  {
    next := iter.next;
    var index := ComputeBucket(iter.str, newTable.Length);
    assert x[i][0] in Cells(x);
    assert Linked(heads[i], x[i]);
    MoveCell(x, i, y, index);
    heads', x', y' := heads[i := next], x[i := x[i][1..]], y[index := [iter] + y[index]];
    assert y'[index][0] in Cells(y');
    assert iter !in Cells(x') && iter !in Cells(y);
    Unlinked(heads, x, i, next);
    iter.next := newTable[index];
    PutHead(newTable, index, iter, y);
  }

  /** Without its first cell a list starts at the second. */
  lemma {:induction false} Unlinked(heads: seq<Cell?>, x: seq<seq<Cell>>, i: nat, next: Cell?)
    requires AllLinked(heads, x) && i < |x| && x[i] != [] && next == x[i][0].next
    ensures AllLinked(heads[i := next], x[i := x[i][1..]])
  {
    var x' := x[i := x[i][1..]];
    forall b | 0 <= b < |x'| ensures Linked(heads[i := next][b], x'[b]) {
      assert Linked(heads[b], x[b]);
      if b == i {
        LinkedTail(heads[i], x[i]);
      }
    }
  }

  /** The inner loop of the resize: empty list `i`. */
  method Drain(first: Cell?, newTable: array<Cell?>, ghost heads: seq<Cell?>, ghost x: seq<seq<Cell>>, ghost y: seq<seq<Cell>>,
               ghost i: nat, ghost all: set<Cell>)
    returns (ghost heads': seq<Cell?>, ghost x': seq<seq<Cell>>, ghost y': seq<seq<Cell>>)
    requires newTable.Length > 0 && i < |x| && Moving(heads, x, newTable, y, all) && first == heads[i]
    modifies x[i], newTable
    ensures Moving(heads', x', newTable, y', all)
    ensures heads' == heads[i := null] && x' == x[i := []] && |y'| == |y|
  {
    heads', x', y' := heads, x, y;
    var iter := first;
    while iter != null
      invariant |x'| == |x| && |y'| == |y| && Moving(heads', x', newTable, y', all)
      invariant heads' == heads[i := iter] && x' == x[i := x'[i]]
      invariant forall c :: c in x'[i] ==> c in x[i]
      decreases |x'[i]|
    {
      assert Linked(heads'[i], x'[i]);
      assert iter in x'[i];
      iter, heads', x', y' := MoveOne(iter, newTable, heads', x', y', i, all);
    }
    assert Linked(heads'[i], x'[i]);
  }

  lemma {:induction false} InsertCell(x: seq<seq<Cell>>, b: nat, c: Cell)
    requires b < |x| && Distinct(x) && Hashed(x) && Unique(Cells(x)) && c !in Cells(x)
    requires WellPlaced(c.str, |x|, b) && c.str !in Strings(Cells(x))
    ensures var y := x[b := [c] + x[b]];
            && Distinct(y) && Hashed(y) && Cells(y) == Cells(x) + {c} && Unique(Cells(y)) && |Cells(y)| == |Cells(x)| + 1
            && Strings(Cells(y)) == Strings(Cells(x)) + {c.str}
  {
    CellsPrepend(x, b, c);
    DistinctPrepend(x, b, c);
    HashedPrepend(x, b, c);
  }

  /** The loop over one chain. */
  method FindInChain(head: Cell?, ghost chain: seq<Cell>, s: CString) returns (found: bool)
    requires Linked(head, chain)
    ensures found <==> exists i :: 0 <= i < |chain| && chain[i].str == s
  {
    var iter := head;
    ghost var pos := 0;
    while iter != null
      invariant 0 <= pos <= |chain| && iter == (if pos < |chain| then chain[pos] else null)
      invariant forall i :: 0 <= i < pos ==> chain[i].str != s
      decreases |chain| - pos
    {
      if iter.str == s {
        return true;
      }
      assert chain[pos].next == Follower(chain, pos);
      iter := iter.next;
      pos := pos + 1;
    }
    return false;
  }

  /** A string can only be in the chain that it hashes to. */
  lemma {:induction false} OneBucketSuffices(x: seq<seq<Cell>>, s: CString)
    requires Hashed(x) && InTable(s, |x|)
    ensures s in Strings(Cells(x)) <==> exists i :: 0 <= i < |x[Bucket(s, |x|)]| && x[Bucket(s, |x|)][i].str == s
  {
    var k := Bucket(s, |x|);
    if s in Strings(Cells(x)) {
      var c :| c in Cells(x) && c.str == s;
      var b, i :| 0 <= b < |x| && 0 <= i < |x[b]| && x[b][i] == c;
      assert CellAt(x, b, i) == c;
    }
    if i :| 0 <= i < |x[k]| && x[k][i].str == s {
      assert x[k][i] in Cells(x);
    }
  }
}
