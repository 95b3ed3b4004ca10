/**
 The declarations of the global scope: those of variables move into the new structure, which takes the
 place of the first of them together with the variable `AMPI_globals`.
 */
module CharmGlobals {
  import opened Charm

  /** A declaration statement with its identity; `names` is empty for functions, types and the like. */
  datatype Declaration =
    | Declared(id: nat, names: seq<Symbol>)
    | StructDeclaration
    | StructVariable

  /** A variable and the declaration that is its parent. */
  datatype Global = Global(sym: Symbol, decl: Declaration)

  predicate Movable(d: Declaration) {
    d.Declared? && d.names != []
  }

  /** The first `k` variables of a declaration. */
  function VariablesOf(d: Declaration, k: nat): (gs: seq<Global>)
    requires d.Declared? && k <= |d.names|
    ensures |gs| == k
  {
    seq(k, i requires 0 <= i < k => Global(d.names[i], d))
  }

  /** The variables of the first `n` declarations, in order. */
  function Globals(ds: seq<Declaration>, n: nat): seq<Global>
    requires n <= |ds|
  {
    if n == 0 then []
    else Globals(ds, n - 1) + if Movable(ds[n - 1]) then VariablesOf(ds[n - 1], |ds[n - 1].names|) else []
  }

  /** The movable ones among the first `n` declarations. */
  function Members(ds: seq<Declaration>, n: nat): seq<Declaration>
    requires n <= |ds|
  {
    if n == 0 then [] else Members(ds, n - 1) + if Movable(ds[n - 1]) then [ds[n - 1]] else []
  }

  /** What becomes of the first `n` declarations. */
  function Remaining(ds: seq<Declaration>, n: nat): seq<Declaration>
    requires n <= |ds|
  {
    if n == 0 then []
    else
      Remaining(ds, n - 1)
      + if !Movable(ds[n - 1]) then [ds[n - 1]] else if Members(ds, n - 1) == [] then [StructDeclaration, StructVariable] else []
  }

  /** A file as it is parsed: no statement occurs twice, and the structure is not there yet. */
  ghost predicate Original(ds: seq<Declaration>) {
    && (forall i :: 0 <= i < |ds| ==> ds[i].Declared?)
    && (forall i, j :: 0 <= i < j < |ds| ==> ds[i] != ds[j])
  }

  /** No declaration declares two variables. */
  ghost predicate Single(ds: seq<Declaration>, n: nat)
    requires n <= |ds|
  {
    forall i :: 0 <= i < n && Movable(ds[i]) ==> |ds[i].names| == 1
  }

  /** How often a declaration occurs. */
  function Times(ds: seq<Declaration>, d: Declaration): nat {
    if ds == [] then 0 else Times(ds[..|ds| - 1], d) + if ds[|ds| - 1] == d then 1 else 0
  }

  lemma {:induction false} TimesAppend(ds: seq<Declaration>, x: Declaration, d: Declaration)
    ensures Times(ds + [x], d) == Times(ds, d) + if x == d then 1 else 0
  {
    assert (ds + [x])[..|ds|] == ds;
  }

  /** Every declaration before is kept or moved, once; the structure and its variable are added if need be. */
  ghost predicate Conserved(before: seq<Declaration>, remaining: seq<Declaration>, members: seq<Declaration>, d: Declaration) {
    Times(remaining, d) + Times(members, d) == Times(before, d) + if members != [] && !d.Declared? then 1 else 0
  }

  lemma {:induction false} ConservedKeep(b: seq<Declaration>, r: seq<Declaration>, m: seq<Declaration>, x: Declaration, d: Declaration)
    requires Conserved(b, r, m, d)
    ensures Conserved(b + [x], r + [x], m, d)
  {
    TimesAppend(b, x, d);
    TimesAppend(r, x, d);
  }

  lemma {:induction false} ConservedMove(b: seq<Declaration>, r: seq<Declaration>, m: seq<Declaration>, x: Declaration, d: Declaration)
    requires Conserved(b, r, m, d)
    ensures m != [] ==> Conserved(b + [x], r, m + [x], d)
    ensures m == [] ==> Conserved(b + [x], r + [StructDeclaration, StructVariable], m + [x], d)
  {
    TimesAppend(b, x, d);
    TimesAppend(m, x, d);
    TimesAppend(r, StructDeclaration, d);
    TimesAppend(r + [StructDeclaration], StructVariable, d);
    assert r + [StructDeclaration, StructVariable] == r + [StructDeclaration] + [StructVariable];
  }

  lemma {:induction false} ConservedStep(b: seq<Declaration>, r: seq<Declaration>, m: seq<Declaration>, x: Declaration, d: Declaration,
                                         b': seq<Declaration>, r': seq<Declaration>, m': seq<Declaration>)
    requires Conserved(b, r, m, d) && b' == b + [x]
    requires m' == m + if Movable(x) then [x] else []
    requires r' == r + if !Movable(x) then [x] else if m == [] then [StructDeclaration, StructVariable] else []
    ensures Conserved(b', r', m', d)
  {
    if Movable(x) {
      ConservedMove(b, r, m, x, d);
      assert r + [] == r;
    } else {
      ConservedKeep(b, r, m, x, d);
      assert m + [] == m;
    }
  }

  lemma OneMore(ds: seq<Declaration>, n: nat)
    requires 0 < n <= |ds|
    ensures var x, r, m := ds[n - 1], Remaining(ds, n - 1), Members(ds, n - 1);
            && ds[..n] == ds[..n - 1] + [x]
            && Members(ds, n) == m + (if Movable(x) then [x] else [])
            && Remaining(ds, n) == r + if !Movable(x) then [x] else if m == [] then [StructDeclaration, StructVariable] else []
  {
  }

  lemma {:induction false} NothingLost(ds: seq<Declaration>, n: nat, d: Declaration)
    requires n <= |ds|
    ensures Conserved(ds[..n], Remaining(ds, n), Members(ds, n), d)
  {
    if n > 0 {
      NothingLost(ds, n - 1, d);
      OneMore(ds, n);
      ConservedStep(ds[..n - 1], Remaining(ds, n - 1), Members(ds, n - 1), ds[n - 1], d, ds[..n], Remaining(ds, n), Members(ds, n));
    }
  }

  /** The members are the movable declarations, in their order. */
  lemma {:induction false} MembersInOrder(ds: seq<Declaration>, n: nat) returns (at: seq<nat>)
    requires n <= |ds|
    ensures |at| == |Members(ds, n)|
    ensures forall k :: 0 <= k < |at| ==> at[k] < n && Movable(ds[at[k]]) && Members(ds, n)[k] == ds[at[k]]
    ensures forall k, l :: 0 <= k < l < |at| ==> at[k] < at[l]
    ensures forall i :: 0 <= i < n && Movable(ds[i]) ==> i in at
  {
    at := [];
    if n > 0 {
      at := MembersInOrder(ds, n - 1);
      if Movable(ds[n - 1]) {
        at := at + [n - 1];
      }
    }
  }

  /** Up to the first movable declaration nothing changes. */
  lemma {:induction false} NothingMoved(ds: seq<Declaration>, n: nat)
    requires n <= |ds| && forall i :: 0 <= i < n ==> !Movable(ds[i])
    ensures Remaining(ds, n) == ds[..n] && Members(ds, n) == []
  {
    if n > 0 {
      NothingMoved(ds, n - 1);
      assert ds[..n] == ds[..n - 1] + [ds[n - 1]];
    }
  }

  lemma {:induction false} AtFirst(ds: seq<Declaration>, first: nat)
    requires first < |ds| && (forall i :: 0 <= i < first ==> !Movable(ds[i])) && Movable(ds[first])
    ensures Remaining(ds, first + 1) == ds[..first] + [StructDeclaration, StructVariable]
  {
    NothingMoved(ds, first);
  }

  lemma {:induction false} AfterFirst(ds: seq<Declaration>, first: nat, n: nat)
    requires first < n < |ds| && Movable(ds[first])
    ensures Remaining(ds, n + 1) == Remaining(ds, n) + if Movable(ds[n]) then [] else [ds[n]]
  {
    MembersStay(ds, first + 1, n);
    assert Members(ds, first + 1) == Members(ds, first) + [ds[first]];
    assert Members(ds, n) != [];
  }

  /** The declarations without variables stay in their order; the structure and its variable stand where the first movable one was. */
  lemma {:induction false} RemainingInOrder(ds: seq<Declaration>, n: nat, first: nat, front: seq<Declaration>)
    requires first < n <= |ds| && (forall i :: 0 <= i < first ==> !Movable(ds[i])) && Movable(ds[first])
    requires front == ds[..first] + [StructDeclaration, StructVariable]
    ensures Remaining(ds, n) == front + Immovable(ds[first..n])
  {
    ImmovableNext(ds, first, n);
    if first < n - 1 {
      RemainingInOrder(ds, n - 1, first, front);
      AfterFirst(ds, first, n - 1);
      Regroup(front, Immovable(ds[first..n - 1]), if Movable(ds[n - 1]) then [] else [ds[n - 1]]);
    } else {
      AtFirst(ds, first);
      assert ds[first..first] == [] && front + [] == front;
    }
  }

  lemma ImmovableNext(ds: seq<Declaration>, first: nat, n: nat)
    requires first < n <= |ds|
    ensures Immovable(ds[first..n]) == Immovable(ds[first..n - 1]) + if Movable(ds[n - 1]) then [] else [ds[n - 1]]
  {
    var tail := ds[first..n];
    assert tail[..|tail| - 1] == ds[first..n - 1] && tail[|tail| - 1] == ds[n - 1];
  }

  lemma Regroup(a: seq<Declaration>, b: seq<Declaration>, c: seq<Declaration>)
    ensures (a + b) + c == a + (b + c)
  {
  }

  lemma {:induction false} MembersStay(ds: seq<Declaration>, m: nat, n: nat)
    requires m <= n <= |ds|
    ensures Members(ds, m) <= Members(ds, n)
  {
    if m < n {
      MembersStay(ds, m, n - 1);
    }
  }

  /** The declarations of a list that have no variables. */
  function Immovable(ds: seq<Declaration>): seq<Declaration> {
    if ds == [] then []
    else Immovable(ds[..|ds| - 1]) + if Movable(ds[|ds| - 1]) then [] else [ds[|ds| - 1]]
  }

  lemma {:induction false} RemainingAre(ds: seq<Declaration>, n: nat, i: nat)
    requires n <= |ds| && Original(ds) && i < |Remaining(ds, n)|
    ensures var d := Remaining(ds, n)[i];
            !d.Declared? || (d in ds[..n] && !Movable(d))
  {
    if i < |Remaining(ds, n - 1)| {
      RemainingAre(ds, n - 1, i);
    }
  }

  lemma {:induction false} GlobalsExtend(ds: seq<Declaration>, d: nat, n: nat)
    requires d <= n <= |ds|
    ensures Globals(ds, d) <= Globals(ds, n)
  {
    if d < n {
      GlobalsExtend(ds, d, n - 1);
    }
  }

  /** The next declaration with variables, or the end. */
  function NextMovable(ds: seq<Declaration>, d: nat): (e: nat)
    requires d <= |ds|
    ensures d <= e <= |ds| && (e < |ds| ==> Movable(ds[e]))
    decreases |ds| - d
  {
    if d == |ds| || Movable(ds[d]) then d else NextMovable(ds, d + 1)
  }

  lemma {:induction false} SkippedOne(ds: seq<Declaration>, d: nat)
    requires d < |ds| && !Movable(ds[d])
    ensures Globals(ds, d + 1) == Globals(ds, d) && Members(ds, d + 1) == Members(ds, d)
    ensures Remaining(ds, d + 1) + ds[d + 1..] == Remaining(ds, d) + ds[d..]
  {
    assert Remaining(ds, d + 1) == Remaining(ds, d) + [ds[d]];
    assert ds[d..] == [ds[d]] + ds[d + 1..];
  }

  /** What is skipped stays. */
  lemma {:induction false} Skipped(ds: seq<Declaration>, d: nat)
    requires d <= |ds|
    ensures var e := NextMovable(ds, d);
            && Globals(ds, e) == Globals(ds, d) && Members(ds, e) == Members(ds, d)
            && Remaining(ds, e) + ds[e..] == Remaining(ds, d) + ds[d..]
            && (Single(ds, d) ==> Single(ds, e))
    decreases |ds| - d
  {
    if d < |ds| && !Movable(ds[d]) {
      Skipped(ds, d + 1);
      SkippedOne(ds, d);
    }
  }

  /** In the list the variables of a declaration follow those of all earlier ones. */
  lemma {:induction false} GlobalAt(ds: seq<Declaration>, e: nat, k: nat)
    requires e < |ds| && Movable(ds[e]) && k < |ds[e].names|
    ensures |Globals(ds, e)| + k < |Globals(ds, |ds|)| && Globals(ds, |ds|)[|Globals(ds, e)| + k] == Global(ds[e].names[k], ds[e])
  {
    GlobalsExtend(ds, e + 1, |ds|);
    assert Globals(ds, e + 1)[|Globals(ds, e)| + k] == Global(ds[e].names[k], ds[e]);
  }

  function Find(ds: seq<Declaration>, d: Declaration): (i: int)
    ensures -1 <= i < |ds|
    ensures i >= 0 ==> ds[i] == d
    ensures i < 0 ==> forall j :: 0 <= j < |ds| ==> ds[j] != d
  {
    if ds == [] then -1
    else if ds[|ds| - 1] == d then |ds| - 1
    else Find(ds[..|ds| - 1], d)
  }

  /** Where a movable declaration is, before and after its turn. */
  lemma {:induction false} Located(ds: seq<Declaration>, e: nat)
    requires e < |ds| && Movable(ds[e]) && Original(ds)
    ensures Find(Remaining(ds, e) + ds[e..], ds[e]) == |Remaining(ds, e)|
    ensures Find(Remaining(ds, e + 1) + ds[e + 1..], ds[e]) < 0
  {
    var a := Remaining(ds, e) + ds[e..];
    var b := Remaining(ds, e + 1) + ds[e + 1..];
    forall i | 0 <= i < |Remaining(ds, e)| ensures a[i] != ds[e] {
      RemainingAre(ds, e, i);
    }
    forall i | 0 <= i < |Remaining(ds, e + 1)| ensures b[i] != ds[e] {
      RemainingAre(ds, e + 1, i);
    }
    assert a[|Remaining(ds, e)|] == ds[e];
    assert forall i :: |Remaining(ds, e)| < i < |a| ==> a[i] == ds[e + i - |Remaining(ds, e)|];
    assert forall i :: |Remaining(ds, e + 1)| <= i < |b| ==> b[i] == ds[e + 1 + i - |Remaining(ds, e + 1)|];
  }

  /** The list of statements with one taken out. */
  function Without(ds: seq<Declaration>, i: nat, first: bool): seq<Declaration>
    requires i < |ds|
  {
    ds[..i] + (if first then [StructDeclaration, StructVariable] else []) + ds[i + 1..]
  }

  /** Replacing a statement and inserting another behind it. */
  lemma {:induction false} ReplacedAndInserted(ds: seq<Declaration>, i: nat, replaced: seq<Declaration>)
    requires i < |ds| && replaced == ds[i := StructDeclaration]
    ensures replaced[..i + 1] + [StructVariable] + replaced[i + 1..] == Without(ds, i, true)
  {
    assert replaced[..i + 1] == ds[..i] + [StructDeclaration];
    assert replaced[i + 1..] == ds[i + 1..];
  }

  lemma {:induction false} WithoutOne(ds: seq<Declaration>, k: nat)
    requires k < |ds| && Movable(ds[k])
    ensures Without(Remaining(ds, k) + ds[k..], |Remaining(ds, k)|, Members(ds, k) == []) == Remaining(ds, k + 1) + ds[k + 1..]
  {
    var r, all := Remaining(ds, k), Remaining(ds, k) + ds[k..];
    assert all[..|r|] == r;
    assert all[|r| + 1..] == ds[k + 1..];
  }

  /** The declarations before `d` have been dealt with, by the first `i` variables of the list. */
  ghost predicate Progress(ds: seq<Declaration>, d: nat, i: nat, declarations: seq<Declaration>, members: seq<Declaration>) {
    && d <= |ds| && declarations == Remaining(ds, d) + ds[d..] && members == Members(ds, d)
    && (i == 0) == (members == [])
    && if Single(ds, d) then i == |Globals(ds, d)|
       else d > 0 && Movable(ds[d - 1]) && |ds[d - 1].names| > 1 && i == |Globals(ds, d - 1)| + 1
  }

  /** The next variable of the list is the first of a declaration, ... */
  lemma {:induction false} NextVariable(ds: seq<Declaration>, d: nat, i: nat, declarations: seq<Declaration>, members: seq<Declaration>)
    returns (e: nat)
    requires Progress(ds, d, i, declarations, members) && i < |Globals(ds, |ds|)| && Single(ds, d)
    ensures e < |ds| && Movable(ds[e]) && Single(ds, e) && i == |Globals(ds, e)| && (i == 0) == (Members(ds, e) == [])
    ensures declarations == Remaining(ds, e) + ds[e..] && members == Members(ds, e) && Globals(ds, |ds|)[i].decl == ds[e]
  {
    e := NextMovable(ds, d);
    Skipped(ds, d);
    GlobalAt(ds, e, 0);
  }

  /** ... it is there, and taking it out is progress. */
  lemma {:induction false} AdvanceSingle(ds: seq<Declaration>, d: nat, i: nat, declarations: seq<Declaration>, members: seq<Declaration>,
                                         g: Declaration) returns (e: nat)
    requires Original(ds) && Progress(ds, d, i, declarations, members) && i < |Globals(ds, |ds|)| && g == Globals(ds, |ds|)[i].decl
    requires Single(ds, d)
    ensures Find(declarations, g) >= 0 && Progress(ds, e, i + 1, Without(declarations, Find(declarations, g), i == 0), members + [g])
  {
    e := NextVariable(ds, d, i, declarations, members);
    Located(ds, e);
    ProgressStep(ds, e, i, declarations, members, Find(declarations, g), g);
    e := e + 1;
  }

  lemma {:induction false} Advance(ds: seq<Declaration>, d: nat, i: nat, declarations: seq<Declaration>, members: seq<Declaration>,
                                   g: Declaration) returns (e: nat)
    requires Original(ds) && Progress(ds, d, i, declarations, members) && i < |Globals(ds, |ds|)| && g == Globals(ds, |ds|)[i].decl
    ensures Single(ds, d) <==> Find(declarations, g) >= 0
    ensures Single(ds, d) ==> Progress(ds, e, i + 1, Without(declarations, Find(declarations, g), i == 0), members + [g])
  {
    e := d;
    if Single(ds, d) {
      e := AdvanceSingle(ds, d, i, declarations, members, g);
    } else {
      NextGone(ds, d, i, declarations, members);
    }
  }

  lemma {:induction false} ProgressStep(ds: seq<Declaration>, e: nat, i: nat, declarations: seq<Declaration>, members: seq<Declaration>,
                                        r: nat, g: Declaration)
    requires e < |ds| && Movable(ds[e]) && Single(ds, e) && i == |Globals(ds, e)| && (i == 0) == (Members(ds, e) == [])
    requires declarations == Remaining(ds, e) + ds[e..] && members == Members(ds, e) && r == |Remaining(ds, e)| && g == ds[e]
    ensures r < |declarations| && Progress(ds, e + 1, i + 1, Without(declarations, r, i == 0), members + [g])
  {
    WithoutOne(ds, e);
    assert Globals(ds, e + 1) == Globals(ds, e) + VariablesOf(ds[e], |ds[e].names|);
    assert Members(ds, e + 1) == Members(ds, e) + [ds[e]];
  }

  /** Or it is the second of one that is gone. */
  lemma {:induction false} NextGone(ds: seq<Declaration>, d: nat, i: nat, declarations: seq<Declaration>, members: seq<Declaration>)
    requires Original(ds) && Progress(ds, d, i, declarations, members) && i < |Globals(ds, |ds|)| && !Single(ds, d)
    ensures Find(declarations, Globals(ds, |ds|)[i].decl) < 0
  {
    GlobalAt(ds, d - 1, 1);
    Located(ds, d - 1);
  }

  lemma {:induction false} AllDone(ds: seq<Declaration>, d: nat, declarations: seq<Declaration>, members: seq<Declaration>)
    requires Original(ds) && Progress(ds, d, |Globals(ds, |ds|)|, declarations, members)
    ensures Single(ds, |ds|) && declarations == Remaining(ds, |ds|) && members == Members(ds, |ds|)
  {
    if Single(ds, d) {
      var e := NextMovable(ds, d);
      Skipped(ds, d);
      if e < |ds| {
        GlobalAt(ds, e, 0);
      }
    } else {
      GlobalAt(ds, d - 1, 1);
    }
  }

  class GlobalScope {
    var declarations: seq<Declaration>
    var members: seq<Declaration>

    constructor (declarations: seq<Declaration>)
      ensures this.declarations == declarations && members == []
    {
      this.declarations, members := declarations, [];
    }

    /** The list of all global variables. */
    method BuildListOfGlobals() returns (globals: seq<Global>)
      ensures globals == Globals(declarations, |declarations|)
    {
      globals := [];
      for i := 0 to |declarations|
        invariant globals == Globals(declarations, i)
      {
        var d := declarations[i];
        if d.Declared? {
          for k := 0 to |d.names|
            invariant globals == Globals(declarations, i) + VariablesOf(d, k)
          {
            globals := globals + [Global(d.names[k], d)];
          }
        }
      }
    }

    /**
     `replace_statement` by the structure, followed by its variable, or `remove_statement`, and then
     `append_member`; fails if the statement is not there.
     */
    method Move(d: Declaration, first: bool) returns (ok: bool)
      modifies this
      ensures ok == (Find(old(declarations), d) >= 0)
      ensures ok ==> declarations == Without(old(declarations), Find(old(declarations), d), first) && members == old(members) + [d]
      ensures !ok ==> declarations == old(declarations) && members == old(members)
    {
      var i := Find(declarations, d);
      if i < 0 {
        return false;
      }
      if first {
        ghost var ds := declarations;
        declarations := declarations[i := StructDeclaration];
        ReplacedAndInserted(ds, i, declarations);
        declarations := declarations[..i + 1] + [StructVariable] + declarations[i + 1..];
      } else {
        assert declarations[..i] + [] == declarations[..i];
        declarations := declarations[..i] + declarations[i + 1..];
      }
      members := members + [d];
      return true;
    }

    /** Moves the declarations of the listed variables into the structure, variable by variable. */
    method PutIntoStruct(globals: seq<Global>) returns (ok: bool)
      requires Original(declarations) && members == [] && globals == Globals(declarations, |declarations|)
      modifies this
      ensures ok <==> Single(old(declarations), |old(declarations)|)
      ensures ok ==> declarations == Remaining(old(declarations), |old(declarations)|)
      ensures ok ==> members == Members(old(declarations), |old(declarations)|)
    {
      ghost var ds, d := declarations, 0;
      for i := 0 to |globals|
        invariant Progress(ds, d, i, declarations, members)
      {
        d := Advance(ds, d, i, declarations, members, globals[i].decl);
        ok := Move(globals[i].decl, i == 0);
        if !ok {
          return;
        }
      }
      AllDone(ds, d, declarations, members);
      ok := true;
    }
  }
}
