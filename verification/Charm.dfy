/**
 Global variables gathered into one structure: every reference `x` to a global variable becomes
 `AMPI_globals.x`. This module has the syntax trees, their meaning, and what the rewriting must do.
 */
module Charm {

  import opened Optional

  /** A resolved variable: references to a local variable that hides a global one have another symbol. */
  datatype Symbol = Symbol(id: nat, global: bool)

  datatype UnaryOp = Negate | Deref | AddressOf | Increment
  datatype BinaryOp = Add | Less | Equal | Assign | Comma | Dot

  /** The kinds of nodes; the last five are the parents under which a global reference is not supported. */
  datatype Kind =
    | Lit(n: int)
    | Ref(sym: Symbol)
    | Unary(uop: UnaryOp)
    | Binary(bop: BinaryOp)
    | Call(f: int)
    | Conditional
    | ExprStatement
    | Block
    | While

  datatype Tree = Tree(kind: Kind, kids: seq<Tree>)

  // ------------------------------------------------------------------ the rewriting, from the top

  predicate GlobalRef(k: Kind) {
    k.Ref? && k.sym.global
  }

  /** The parents whose operands can be replaced. */
  predicate Operator(k: Kind) {
    k.Unary? || k.Binary?
  }

  function ThroughStruct(t: Tree, ampi: Symbol): Tree {
    Tree(Binary(Dot), [Tree(Ref(ampi), []), t])
  }

  /** The tree with all references to global variables going through the structure. */
  function Fixed(t: Tree, ampi: Symbol): Tree {
    if GlobalRef(t.kind) then ThroughStruct(t, ampi) else Tree(t.kind, seq(|t.kids|, i requires 0 <= i < |t.kids| => Fixed(t.kids[i], ampi)))
  }

  /** Every reference to a global variable is an operand of an operator. */
  predicate Supported(t: Tree, underOperator: bool) {
    && (GlobalRef(t.kind) ==> underOperator)
    && forall i :: 0 <= i < |t.kids| ==> Supported(t.kids[i], Operator(t.kind))
  }

  // ------------------------------------------------------------------ meaning

  datatype Loc = VarLoc(sym: Symbol) | FieldLoc(base: Loc, field: Symbol)
  datatype Value = Num(n: int) | Ptr(loc: Loc)
  type Memory = map<Loc, Value>
  type Outcome = Option<(Value, Memory)>

  /** What called functions do. */
  type Library = (int, seq<Value>, Memory) -> Outcome

  function Object(l: Loc, lvalue: bool, m: Memory): Outcome {
    if lvalue then Some((Ptr(l), m)) else if l in m then Some((m[l], m)) else None
  }

  /** Whether a child is wanted as an lvalue. */
  predicate Wanted(k: Kind, lvalue: bool, i: nat) {
    match k
    case Unary(op) => op == AddressOf || op == Increment
    case Binary(op) => (op == Assign && i == 0) || (op == Comma && i == 1 && lvalue)
    case _ => false
  }

  /** The result of a node from the values of its children. */
  function Result(lib: Library, k: Kind, lvalue: bool, vs: seq<Value>, m: Memory): Outcome {
    match k
    case Lit(n) => if lvalue then None else Some((Num(n), m))
    case Ref(s) => Object(VarLoc(s), lvalue, m)
    case Unary(op) => if |vs| == 1 then UnaryResult(op, lvalue, vs[0], m) else None
    case Binary(op) => if |vs| == 2 then BinaryResult(op, lvalue, vs[0], vs[1], m) else None
    case Call(f) => if lvalue then None else lib(f, vs, m)
    case _ => if lvalue then None else Some((Num(0), m))
  }

  function UnaryResult(op: UnaryOp, lvalue: bool, v: Value, m: Memory): Outcome {
    match op
    case Negate => if lvalue || !v.Num? then None else Some((Num(-v.n), m))
    case Deref => if v.Ptr? then Object(v.loc, lvalue, m) else None
    case AddressOf => if lvalue || !v.Ptr? then None else Some((v, m))
    case Increment =>
      if v.Ptr? && v.loc in m && m[v.loc].Num? then Object(v.loc, lvalue, m[v.loc := Num(m[v.loc].n + 1)]) else None
  }

  function BinaryResult(op: BinaryOp, lvalue: bool, v: Value, w: Value, m: Memory): Outcome {
    match op
    case Add => if lvalue || !v.Num? || !w.Num? then None else Some((Num(v.n + w.n), m))
    case Less => if lvalue || !v.Num? || !w.Num? then None else Some((Num(if v.n < w.n then 1 else 0), m))
    case Equal => if lvalue then None else Some((Num(if v == w then 1 else 0), m))
    case Assign => if v.Ptr? then Object(v.loc, lvalue, m[v.loc := w]) else None
    case Comma => Some((w, m))
    case Dot => None
  }

  predicate NamesMember(k: Kind, gathered: bool) {
    k.Ref? && (k.sym.global ==> gathered)
  }

  /**
   The value of a tree (or for an lvalue the place) and the memory afterwards; `None` if there is none or
   a loop has not ended in `fuel` rounds. Children are evaluated from left to right; the right side of a
   member selection only names a member. A global variable is no member, unless the program is the
   rewritten one (`gathered`).
   */
  function Eval(lib: Library, gathered: bool, fuel: nat, t: Tree, lvalue: bool, m: Memory): Outcome
    decreases fuel, t, |t.kids| + 1
  {
    if t.kind == Binary(Dot) then
      if |t.kids| != 2 || !NamesMember(t.kids[1].kind, gathered) then None
      else
        match Eval(lib, gathered, fuel, t.kids[0], true, m)
        case Some((Ptr(l), m')) => Object(FieldLoc(l, t.kids[1].kind.sym), lvalue, m')
        case _ => None
    else if t.kind == Conditional then
      if |t.kids| != 3 then None
      else
        match Eval(lib, gathered, fuel, t.kids[0], false, m)
        case Some((Num(x), m')) => if x != 0 then Eval(lib, gathered, fuel, t.kids[1], lvalue, m') else Eval(lib, gathered, fuel, t.kids[2], lvalue, m')
        case _ => None
    else if t.kind == While then
      if |t.kids| != 2 || lvalue then None
      else
        match Eval(lib, gathered, fuel, t.kids[0], false, m)
        case Some((Num(x), m')) =>
          if x == 0 then Some((Num(0), m'))
          else if fuel == 0 then None
          else
            (match Eval(lib, gathered, fuel, t.kids[1], false, m')
             case Some((_, m'')) => Eval(lib, gathered, fuel - 1, t, lvalue, m'')
             case None => None)
        case _ => None
    else
      match EvalKids(lib, gathered, fuel, t, |t.kids|, lvalue, m)
      case Some((vs, m')) => Result(lib, t.kind, lvalue, vs, m')
      case None => None
  }

  function EvalKids(lib: Library, gathered: bool, fuel: nat, t: Tree, n: nat, lvalue: bool, m: Memory): Option<(seq<Value>, Memory)>
    requires n <= |t.kids|
    decreases fuel, t, n
  {
    if n == 0 then Some(([], m))
    else
      match EvalKids(lib, gathered, fuel, t, n - 1, lvalue, m)
      case None => None
      case Some((vs, m')) =>
        match Eval(lib, gathered, fuel, t.kids[n - 1], Wanted(t.kind, lvalue, n - 1), m')
        case None => None
        case Some((v, m'')) => Some((vs + [v], m''))
  }

  // ------------------------------------------------------------------ the correspondence of stores

  /** Where a place is after the rewriting: a global variable is the member of the structure. */
  function Moved(l: Loc, ampi: Symbol): Loc {
    match l
    case VarLoc(s) => if s.global then FieldLoc(VarLoc(ampi), s) else l
    case FieldLoc(b, f) => FieldLoc(Moved(b, ampi), f)
  }

  function MovedValue(v: Value, ampi: Symbol): Value {
    match v
    case Num(_) => v
    case Ptr(l) => Ptr(Moved(l, ampi))
  }

  function MovedValues(vs: seq<Value>, ampi: Symbol): (ws: seq<Value>)
    ensures |ws| == |vs|
  {
    seq(|vs|, i requires 0 <= i < |vs| => MovedValue(vs[i], ampi))
  }

  /** Different places stay different. */
  lemma {:induction false} MovedInjective(a: Loc, b: Loc, ampi: Symbol)
    requires ampi.global
    ensures Moved(a, ampi) == Moved(b, ampi) <==> a == b
  {
    if a.FieldLoc? && b.FieldLoc? {
      MovedInjective(a.base, b.base, ampi);
    }
  }

  ghost predicate SameAt(m: Memory, m': Memory, ampi: Symbol, l: Loc) {
    (l in m <==> Moved(l, ampi) in m') && (l in m ==> m'[Moved(l, ampi)] == MovedValue(m[l], ampi))
  }

  /** Every place holds what its new place holds. */
  ghost predicate SameStore(m: Memory, m': Memory, ampi: Symbol) {
    forall l {:trigger SameAt(m, m', ampi, l)} :: SameAt(m, m', ampi, l)
  }

  ghost predicate SameOutcome(o: Outcome, o': Outcome, ampi: Symbol) {
    match (o, o')
    case (None, None) => true
    case (Some((v, m)), Some((v', m'))) => v' == MovedValue(v, ampi) && SameStore(m, m', ampi)
    case _ => false
  }

  /** The two libraries do the same up to the move. */
  ghost predicate SameLibrary(lib: Library, lib': Library, ampi: Symbol) {
    forall f, vs, m, m' {:trigger lib(f, vs, m), SameStore(m, m', ampi)} ::
      SameStore(m, m', ampi) ==> SameOutcome(lib(f, vs, m), lib'(f, MovedValues(vs, ampi), m'), ampi)
  }

  lemma {:induction false} SameObject(l: Loc, lvalue: bool, m: Memory, m': Memory, ampi: Symbol)
    requires SameStore(m, m', ampi)
    ensures SameOutcome(Object(l, lvalue, m), Object(Moved(l, ampi), lvalue, m'), ampi)
  {
    assert SameAt(m, m', ampi, l);
  }

  lemma {:induction false} SameUpdate(m: Memory, m': Memory, ampi: Symbol, l: Loc, v: Value)
    requires ampi.global && SameStore(m, m', ampi)
    ensures SameStore(m[l := v], m'[Moved(l, ampi) := MovedValue(v, ampi)], ampi)
  {
    var n, n' := m[l := v], m'[Moved(l, ampi) := MovedValue(v, ampi)];
    forall a ensures SameAt(n, n', ampi, a) {
      assert SameAt(m, m', ampi, a);
      MovedInjective(a, l, ampi);
    }
  }

  lemma {:induction false} SameUnary(op: UnaryOp, lvalue: bool, v: Value, m: Memory, m': Memory, ampi: Symbol)
    requires ampi.global && SameStore(m, m', ampi)
    ensures SameOutcome(UnaryResult(op, lvalue, v, m), UnaryResult(op, lvalue, MovedValue(v, ampi), m'), ampi)
  {
    if v.Ptr? {
      SameObject(v.loc, lvalue, m, m', ampi);
      assert SameAt(m, m', ampi, v.loc);
      if op == Increment && v.loc in m && m[v.loc].Num? {
        var w := Num(m[v.loc].n + 1);
        SameUpdate(m, m', ampi, v.loc, w);
        SameObject(v.loc, lvalue, m[v.loc := w], m'[Moved(v.loc, ampi) := w], ampi);
      }
    }
  }

  lemma {:induction false} SameBinary(op: BinaryOp, lvalue: bool, v: Value, w: Value, m: Memory, m': Memory, ampi: Symbol)
    requires ampi.global && SameStore(m, m', ampi)
    ensures SameOutcome(BinaryResult(op, lvalue, v, w, m), BinaryResult(op, lvalue, MovedValue(v, ampi), MovedValue(w, ampi), m'), ampi)
  {
    if v.Ptr? && w.Ptr? {
      MovedInjective(v.loc, w.loc, ampi);
    }
    if v.Ptr? && op == Assign {
      SameUpdate(m, m', ampi, v.loc, w);
      SameObject(v.loc, lvalue, m[v.loc := w], m'[Moved(v.loc, ampi) := MovedValue(w, ampi)], ampi);
    }
  }

  lemma {:induction false} SameResult(lib: Library, lib': Library, k: Kind, lvalue: bool, vs: seq<Value>, m: Memory, m': Memory, ampi: Symbol)
    requires ampi.global && SameStore(m, m', ampi) && SameLibrary(lib, lib', ampi) && !GlobalRef(k)
    ensures SameOutcome(Result(lib, k, lvalue, vs, m), Result(lib', k, lvalue, MovedValues(vs, ampi), m'), ampi)
  {
    match k
    case Lit(_) =>
    case Ref(s) => SameObject(VarLoc(s), lvalue, m, m', ampi);
    case Unary(op) => if |vs| == 1 { SameUnary(op, lvalue, vs[0], m, m', ampi); }
    case Binary(op) => if |vs| == 2 { SameBinary(op, lvalue, vs[0], vs[1], m, m', ampi); }
    case Call(f) => assert SameStore(m, m', ampi) ==> SameOutcome(lib(f, vs, m), lib'(f, MovedValues(vs, ampi), m'), ampi);
    case _ =>
  }

  ghost predicate SameValues(o: Option<(seq<Value>, Memory)>, o': Option<(seq<Value>, Memory)>, ampi: Symbol) {
    match (o, o')
    case (None, None) => true
    case (Some((vs, m)), Some((vs', m'))) => vs' == MovedValues(vs, ampi) && SameStore(m, m', ampi)
    case _ => false
  }

  // ------------------------------------------------------------------ the rewriting preserves meaning

  /** A reference through the structure is the moved place of the variable. */
  lemma {:induction false} StructReference(lib: Library, lib': Library, fuel: nat, t: Tree, lvalue: bool, m: Memory, m': Memory, ampi: Symbol)
    requires GlobalRef(t.kind) && t.kids == [] && SameStore(m, m', ampi)
    ensures SameOutcome(Eval(lib, false, fuel, t, lvalue, m), Eval(lib', true, fuel, ThroughStruct(t, ampi), lvalue, m'), ampi)
  {
    var base := Tree(Ref(ampi), []);
    assert EvalKids(lib', true, fuel, base, 0, true, m') == Some(([], m'));
    assert Eval(lib', true, fuel, base, true, m') == Some((Ptr(VarLoc(ampi)), m'));
    assert EvalKids(lib, false, fuel, t, 0, lvalue, m) == Some(([], m));
    SameObject(VarLoc(t.kind.sym), lvalue, m, m', ampi);
  }

  /** References are leaves. */
  predicate WellFormed(t: Tree) {
    (t.kind.Ref? ==> t.kids == []) && forall i :: 0 <= i < |t.kids| ==> WellFormed(t.kids[i])
  }

  /** Running the rewritten tree on the corresponding store gives the corresponding result, for every number of rounds. */
  lemma {:induction false} FixedPreserves(lib: Library, lib': Library, fuel: nat, t: Tree, lvalue: bool, m: Memory, m': Memory, ampi: Symbol)
    requires WellFormed(t) && ampi.global && SameStore(m, m', ampi) && SameLibrary(lib, lib', ampi)
    ensures SameOutcome(Eval(lib, false, fuel, t, lvalue, m), Eval(lib', true, fuel, Fixed(t, ampi), lvalue, m'), ampi)
    decreases fuel, t, |t.kids| + 1
  {
    if GlobalRef(t.kind) {
      StructReference(lib, lib', fuel, t, lvalue, m, m', ampi);
    } else if t.kind == Binary(Dot) {
      if |t.kids| == 2 {
        assert Fixed(t, ampi).kids[1] == Fixed(t.kids[1], ampi);
        FixedPreserves(lib, lib', fuel, t.kids[0], true, m, m', ampi);
        MemberPreserved(lib, lib', fuel, t, lvalue, m, m', ampi);
      }
    } else if t.kind == Conditional {
      if |t.kids| == 3 {
        FixedPreserves(lib, lib', fuel, t.kids[0], false, m, m', ampi);
        var o, o' := Eval(lib, false, fuel, t.kids[0], false, m), Eval(lib', true, fuel, Fixed(t, ampi).kids[0], false, m');
        if o.Some? {
          FixedPreserves(lib, lib', fuel, t.kids[1], lvalue, o.value.1, o'.value.1, ampi);
          FixedPreserves(lib, lib', fuel, t.kids[2], lvalue, o.value.1, o'.value.1, ampi);
        }
      }
    } else if t.kind == While {
      LoopPreserves(lib, lib', fuel, t, lvalue, m, m', ampi);
    } else {
      KidsPreserve(lib, lib', fuel, t, |t.kids|, lvalue, m, m', ampi);
      var o, o' := EvalKids(lib, false, fuel, t, |t.kids|, lvalue, m), EvalKids(lib', true, fuel, Fixed(t, ampi), |t.kids|, lvalue, m');
      if o.Some? {
        SameResult(lib, lib', t.kind, lvalue, o.value.0, o.value.1, o'.value.1, ampi);
      }
    }
  }

  lemma {:induction false} MemberPreserved(lib: Library, lib': Library, fuel: nat, t: Tree, lvalue: bool, m: Memory, m': Memory, ampi: Symbol)
    requires t.kind == Binary(Dot) && |t.kids| == 2 && SameStore(m, m', ampi)
    requires SameOutcome(Eval(lib, false, fuel, t.kids[0], true, m), Eval(lib', true, fuel, Fixed(t.kids[0], ampi), true, m'), ampi)
    ensures SameOutcome(Eval(lib, false, fuel, t, lvalue, m), Eval(lib', true, fuel, Fixed(t, ampi), lvalue, m'), ampi)
  {
    var t' := Fixed(t, ampi);
    assert t'.kids[0] == Fixed(t.kids[0], ampi) && t'.kids[1] == Fixed(t.kids[1], ampi);
    assert NamesMember(t'.kids[1].kind, true) <==> NamesMember(t.kids[1].kind, false);
    var o, o' := Eval(lib, false, fuel, t.kids[0], true, m), Eval(lib', true, fuel, t'.kids[0], true, m');
    if NamesMember(t.kids[1].kind, false) && o.Some? && o.value.0.Ptr? {
      SameObject(FieldLoc(o.value.0.loc, t.kids[1].kind.sym), lvalue, o.value.1, o'.value.1, ampi);
    }
  }

  lemma {:induction false} LoopPreserves(lib: Library, lib': Library, fuel: nat, t: Tree, lvalue: bool, m: Memory, m': Memory, ampi: Symbol)
    requires WellFormed(t) && ampi.global && SameStore(m, m', ampi) && SameLibrary(lib, lib', ampi) && t.kind == While
    ensures SameOutcome(Eval(lib, false, fuel, t, lvalue, m), Eval(lib', true, fuel, Fixed(t, ampi), lvalue, m'), ampi)
    decreases fuel, t, |t.kids|
  {
    if |t.kids| == 2 && !lvalue {
      var t' := Fixed(t, ampi);
      FixedPreserves(lib, lib', fuel, t.kids[0], false, m, m', ampi);
      var o, o' := Eval(lib, false, fuel, t.kids[0], false, m), Eval(lib', true, fuel, t'.kids[0], false, m');
      if o.Some? && o.value.0.Num? && o.value.0.n != 0 && fuel != 0 {
        FixedPreserves(lib, lib', fuel, t.kids[1], false, o.value.1, o'.value.1, ampi);
        var p, p' := Eval(lib, false, fuel, t.kids[1], false, o.value.1), Eval(lib', true, fuel, t'.kids[1], false, o'.value.1);
        if p.Some? {
          FixedPreserves(lib, lib', fuel - 1, t, lvalue, p.value.1, p'.value.1, ampi);
        }
      }
    }
  }

  lemma {:induction false} KidsPreserve(lib: Library, lib': Library, fuel: nat, t: Tree, n: nat, lvalue: bool, m: Memory, m': Memory, ampi: Symbol)
    requires WellFormed(t) && ampi.global && SameStore(m, m', ampi) && SameLibrary(lib, lib', ampi)
    requires n <= |t.kids| && !GlobalRef(t.kind)
    ensures SameValues(EvalKids(lib, false, fuel, t, n, lvalue, m), EvalKids(lib', true, fuel, Fixed(t, ampi), n, lvalue, m'), ampi)
    decreases fuel, t, n
  {
    if n > 0 {
      KidsPreserve(lib, lib', fuel, t, n - 1, lvalue, m, m', ampi);
      var o, o' := EvalKids(lib, false, fuel, t, n - 1, lvalue, m), EvalKids(lib', true, fuel, Fixed(t, ampi), n - 1, lvalue, m');
      if o.Some? {
        FixedPreserves(lib, lib', fuel, t.kids[n - 1], Wanted(t.kind, lvalue, n - 1), o.value.1, o'.value.1, ampi);
      }
    }
  }

  // ------------------------------------------------------------------ the rewriting can be taken back

  predicate Mentions(t: Tree, s: Symbol) {
    t.kind == Ref(s) || exists i :: 0 <= i < |t.kids| && Mentions(t.kids[i], s)
  }

  predicate IsThroughStruct(t: Tree, ampi: Symbol) {
    t.kind == Binary(Dot) && |t.kids| == 2 && t.kids[0] == Tree(Ref(ampi), [])
  }

  function Unfixed(t: Tree, ampi: Symbol): Tree {
    if IsThroughStruct(t, ampi) then t.kids[1]
    else Tree(t.kind, seq(|t.kids|, i requires 0 <= i < |t.kids| => Unfixed(t.kids[i], ampi)))
  }

  /** Nothing else is touched: dropping the structure again gives the program as it was. */
  lemma {:induction false} UnfixedFixed(t: Tree, ampi: Symbol)
    requires WellFormed(t) && !Mentions(t, ampi)
    ensures Unfixed(Fixed(t, ampi), ampi) == t
  {
    if !GlobalRef(t.kind) {
      var t' := Fixed(t, ampi);
      forall i | 0 <= i < |t.kids| ensures Unfixed(t'.kids[i], ampi) == t.kids[i] {
        UnfixedFixed(t.kids[i], ampi);
      }
      if |t.kids| == 2 {
        assert !Mentions(t.kids[0], ampi);
        assert t'.kids[0].kind != Ref(ampi);
      }
      assert Unfixed(t', ampi).kids == t.kids;
    }
  }
}
