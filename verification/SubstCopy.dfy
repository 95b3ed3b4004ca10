/**
 Copying a syntax tree while replacing every reference to one symbol (`SgVarSubstCopy`).

 Copying a node copies its children with the same rule.  The replacement expression is copied that
 way too, so a replacement whose children mention the symbol is never finished with.
 */
module SubstCopy {

  import opened Optional

  type Symbol = nat

  datatype Operator = Add | Subtract | Multiply | Less

  datatype Node =
    | Lit(value: int)
    | Ref(sym: Symbol)
    | Op(op: Operator, left: Node, right: Node)
    | Assign(target: Node, source: Node)
    | Seq(first: Node, second: Node)
    | If(cond: Node, thn: Node, els: Node)
    | While(guard: Node, body: Node)

  /** The node itself or something below it refers to `s`. */
  predicate Mentions(n: Node, s: Symbol)
    decreases n, 1
  {
    n == Ref(s) || ChildMentions(n, s)
  }

  /** Something below the node refers to `s`. */
  predicate ChildMentions(n: Node, s: Symbol)
    decreases n, 0
  {
    match n
    case Lit(_) => false
    case Ref(_) => false
    case Op(_, l, r) => Mentions(l, s) || Mentions(r, s)
    case Assign(l, r) => Mentions(l, s) || Mentions(r, s)
    case Seq(l, r) => Mentions(l, s) || Mentions(r, s)
    case If(c, l, r) => Mentions(c, s) || Mentions(l, s) || Mentions(r, s)
    case While(c, b) => Mentions(c, s) || Mentions(b, s)
  }

  // ------------------------------------------------------------------ the copy

  /** `copyAst`, with a bound on the depth of its recursion; `None` means that the bound was too small. */
  function CopyAst(n: Node, s: Symbol, r: Node, depth: nat): Option<Node>
    decreases depth, 2
  {
    if n == Ref(s) then Copy(r, s, r, depth) else Copy(n, s, r, depth)
  }

  /** `copy(*this)` of a node: a node of the same kind, the children copied by `copyAst`. */
  function Copy(n: Node, s: Symbol, r: Node, depth: nat): Option<Node>
    decreases depth, 1
  {
    match n
    case Lit(_) => Some(n)
    case Ref(_) => Some(n)
    case Op(f, a, b) => (match CopyBoth(a, b, s, r, depth) case None => None case Some((x, y)) => Some(Op(f, x, y)))
    case Assign(a, b) => (match CopyBoth(a, b, s, r, depth) case None => None case Some((x, y)) => Some(Assign(x, y)))
    case Seq(a, b) => (match CopyBoth(a, b, s, r, depth) case None => None case Some((x, y)) => Some(Seq(x, y)))
    case While(a, b) => (match CopyBoth(a, b, s, r, depth) case None => None case Some((x, y)) => Some(While(x, y)))
    case If(c, a, b) =>
      match (CopyBoth(c, c, s, r, depth), CopyBoth(a, b, s, r, depth))
      case (Some((z, _)), Some((x, y))) => Some(If(z, x, y))
      case _ => None
  }

  function CopyBoth(a: Node, b: Node, s: Symbol, r: Node, depth: nat): Option<(Node, Node)>
    decreases depth, 0
  {
    if depth == 0 then None
    else
      match (CopyAst(a, s, r, depth - 1), CopyAst(b, s, r, depth - 1))
      case (Some(x), Some(y)) => Some((x, y))
      case _ => None
  }

  /** The reference: plain substitution, defined by the shape of the tree alone. */
  function Subst(n: Node, s: Symbol, r: Node): Node {
    match n
    case Lit(_) => n
    case Ref(t) => if t == s then r else n
    case Op(f, a, b) => Op(f, Subst(a, s, r), Subst(b, s, r))
    case Assign(a, b) => Assign(Subst(a, s, r), Subst(b, s, r))
    case Seq(a, b) => Seq(Subst(a, s, r), Subst(b, s, r))
    case If(c, a, b) => If(Subst(c, s, r), Subst(a, s, r), Subst(b, s, r))
    case While(c, b) => While(Subst(c, s, r), Subst(b, s, r))
  }

  function Max(x: nat, y: nat): nat {
    if x < y then y else x
  }

  function Height(n: Node): nat {
    match n
    case Lit(_) => 0
    case Ref(_) => 0
    case Op(_, a, b) => 1 + Max(Height(a), Height(b))
    case Assign(a, b) => 1 + Max(Height(a), Height(b))
    case Seq(a, b) => 1 + Max(Height(a), Height(b))
    case If(c, a, b) => 1 + Max(Height(c), Max(Height(a), Height(b)))
    case While(c, b) => 1 + Max(Height(c), Height(b))
  }

  /** Where the symbol does not occur, the copy is the tree itself. */
  lemma {:induction false} SubstAbsent(n: Node, s: Symbol, r: Node)
    requires !Mentions(n, s)
    ensures Subst(n, s, r) == n
  {
    match n
    case Lit(_) =>
    case Ref(_) =>
    case Op(_, a, b) => SubstAbsent(a, s, r); SubstAbsent(b, s, r);
    case Assign(a, b) => SubstAbsent(a, s, r); SubstAbsent(b, s, r);
    case Seq(a, b) => SubstAbsent(a, s, r); SubstAbsent(b, s, r);
    case If(c, a, b) => SubstAbsent(c, s, r); SubstAbsent(a, s, r); SubstAbsent(b, s, r);
    case While(c, b) => SubstAbsent(c, s, r); SubstAbsent(b, s, r);
  }

  /** A tree without the symbol is copied as it is, within its own height. */
  lemma {:induction false} CopyAbsent(n: Node, s: Symbol, r: Node, depth: nat)
    requires !ChildMentions(n, s) && depth >= Height(n)
    ensures Copy(n, s, r, depth) == Some(n)
    decreases depth, 0
  {
    match n
    case Lit(_) =>
    case Ref(_) =>
    case Op(_, a, b) => BothAbsent(a, b, s, r, depth - 1);
    case Assign(a, b) => BothAbsent(a, b, s, r, depth - 1);
    case Seq(a, b) => BothAbsent(a, b, s, r, depth - 1);
    case If(c, a, b) => BothAbsent(c, c, s, r, depth - 1); BothAbsent(a, b, s, r, depth - 1);
    case While(c, b) => BothAbsent(c, b, s, r, depth - 1);
  }

  lemma {:induction false} BothAbsent(a: Node, b: Node, s: Symbol, r: Node, depth: nat)
    requires !Mentions(a, s) && !Mentions(b, s) && depth >= Height(a) && depth >= Height(b)
    ensures CopyBoth(a, b, s, r, depth + 1) == Some((a, b))
    decreases depth, 1
  {
    CopyAbsent(a, s, r, depth);
    CopyAbsent(b, s, r, depth);
  }

  /** With a harmless replacement the copy is the substitution. */
  lemma {:induction false} CopyIsSubst(n: Node, s: Symbol, r: Node, depth: nat)
    requires !ChildMentions(r, s) && depth >= Height(n) + Height(r)
    ensures CopyAst(n, s, r, depth) == Some(Subst(n, s, r))
    decreases depth, 0
  {
    match n
    case Lit(_) =>
    case Ref(_) => CopyAbsent(r, s, r, depth);
    case Op(_, a, b) => BothSubst(a, b, s, r, depth - 1);
    case Assign(a, b) => BothSubst(a, b, s, r, depth - 1);
    case Seq(a, b) => BothSubst(a, b, s, r, depth - 1);
    case If(c, a, b) => BothSubst(c, c, s, r, depth - 1); BothSubst(a, b, s, r, depth - 1);
    case While(c, b) => BothSubst(c, b, s, r, depth - 1);
  }

  lemma {:induction false} BothSubst(a: Node, b: Node, s: Symbol, r: Node, depth: nat)
    requires !ChildMentions(r, s) && depth >= Height(a) + Height(r) && depth >= Height(b) + Height(r)
    ensures CopyBoth(a, b, s, r, depth + 1) == Some((Subst(a, s, r), Subst(b, s, r)))
    decreases depth, 1
  {
    CopyIsSubst(a, s, r, depth);
    CopyIsSubst(b, s, r, depth);
  }

  /** A replacement with the symbol below its root is copied for ever, wherever it is needed. */
  lemma {:induction false} CopyDiverges(n: Node, s: Symbol, r: Node, depth: nat)
    requires ChildMentions(r, s) && Mentions(n, s)
    ensures CopyAst(n, s, r, depth) == None
    decreases depth, 1
  {
    if n == Ref(s) {
      ChildDiverges(r, s, r, depth);
    } else {
      ChildDiverges(n, s, r, depth);
    }
  }

  lemma {:induction false} ChildDiverges(n: Node, s: Symbol, r: Node, depth: nat)
    requires ChildMentions(r, s) && ChildMentions(n, s)
    ensures Copy(n, s, r, depth) == None
    decreases depth, 0
  {
    if depth > 0 {
      var d := depth - 1;
      forall k | Mentions(k, s) ensures CopyAst(k, s, r, d) == None {
        CopyDiverges(k, s, r, d);
      }
    }
  }

  predicate Finishes(n: Node, s: Symbol, r: Node, depth: nat) {
    CopyAst(n, s, r, depth).Some?
  }

  /** The recursion of `copyAst` comes to an end exactly if the symbol is not met, or the replacement is harmless. */
  lemma {:induction false} CopyTerminates(n: Node, s: Symbol, r: Node)
    ensures (exists depth :: Finishes(n, s, r, depth)) <==> !Mentions(n, s) || !ChildMentions(r, s)
  {
    if !Mentions(n, s) {
      CopyAbsent(n, s, r, Height(n));
      assert Finishes(n, s, r, Height(n));
    } else if !ChildMentions(r, s) {
      CopyIsSubst(n, s, r, Height(n) + Height(r));
      assert Finishes(n, s, r, Height(n) + Height(r));
    } else {
      forall depth ensures !Finishes(n, s, r, depth) {
        CopyDiverges(n, s, r, depth);
      }
    }
  }

  /** A larger bound does not change the result. */
  lemma {:induction false} CopyMonotone(n: Node, s: Symbol, r: Node, depth: nat, more: nat)
    requires depth <= more && Copy(n, s, r, depth).Some?
    ensures Copy(n, s, r, more) == Copy(n, s, r, depth)
    decreases depth, 0
  {
    match n
    case Lit(_) =>
    case Ref(_) =>
    case Op(_, a, b) => BothMonotone(a, b, s, r, depth, more);
    case Assign(a, b) => BothMonotone(a, b, s, r, depth, more);
    case Seq(a, b) => BothMonotone(a, b, s, r, depth, more);
    case If(c, a, b) => BothMonotone(c, c, s, r, depth, more); BothMonotone(a, b, s, r, depth, more);
    case While(c, b) => BothMonotone(c, b, s, r, depth, more);
  }

  lemma {:induction false} BothMonotone(a: Node, b: Node, s: Symbol, r: Node, depth: nat, more: nat)
    requires 0 < depth <= more && CopyBoth(a, b, s, r, depth).Some?
    ensures CopyBoth(a, b, s, r, more) == CopyBoth(a, b, s, r, depth)
    decreases depth - 1, 1
  {
    CopyMonotone(if a == Ref(s) then r else a, s, r, depth - 1, more - 1);
    CopyMonotone(if b == Ref(s) then r else b, s, r, depth - 1, more - 1);
  }

  /** Whatever the copy returns, it is the substitution. */
  lemma {:induction false} CopyResult(n: Node, s: Symbol, r: Node, depth: nat)
    requires CopyAst(n, s, r, depth).Some?
    ensures CopyAst(n, s, r, depth) == Some(Subst(n, s, r))
  {
    var more := depth + Height(n) + Height(r);
    CopyMonotone(if n == Ref(s) then r else n, s, r, depth, more);
    if !ChildMentions(r, s) {
      CopyIsSubst(n, s, r, more);
    } else if !Mentions(n, s) {
      CopyAbsent(n, s, r, more);
      SubstAbsent(n, s, r);
    } else {
      CopyDiverges(n, s, r, depth);
    }
  }

  /** The copy is free of the symbol exactly if there was nothing to replace or the replacement is free of it. */
  lemma {:induction false} SymbolGone(n: Node, s: Symbol, r: Node)
    ensures Mentions(Subst(n, s, r), s) <==> Mentions(n, s) && Mentions(r, s)
  {
    match n
    case Lit(_) =>
    case Ref(_) =>
    case Op(_, a, b) => SymbolGone(a, s, r); SymbolGone(b, s, r);
    case Assign(a, b) => SymbolGone(a, s, r); SymbolGone(b, s, r);
    case Seq(a, b) => SymbolGone(a, s, r); SymbolGone(b, s, r);
    case If(c, a, b) => SymbolGone(c, s, r); SymbolGone(a, s, r); SymbolGone(b, s, r);
    case While(c, b) => SymbolGone(c, s, r); SymbolGone(b, s, r);
  }

  // ------------------------------------------------------------------ what the copy means

  type Env = map<Symbol, int>

  function Lookup(env: Env, s: Symbol): int {
    if s in env then env[s] else 0
  }

  function Operate(op: Operator, x: int, y: int): int {
    match op
    case Add => x + y
    case Subtract => x - y
    case Multiply => x * y
    case Less => if x < y then 1 else 0
  }

  /** The value and the environment after running a tree; `None` if it gets stuck or exceeds the bound on loop rounds. */
  function Eval(n: Node, env: Env, fuel: nat): Option<(int, Env)>
    decreases fuel, n
  {
    match n
    case Lit(v) => Some((v, env))
    case Ref(s) => Some((Lookup(env, s), env))
    case Op(op, a, b) =>
      (match Eval(a, env, fuel)
       case None => None
       case Some((x, e1)) =>
         match Eval(b, e1, fuel)
         case None => None
         case Some((y, e2)) => Some((Operate(op, x, y), e2)))
    case Assign(target, source) =>
      if !target.Ref? then None
      else
        (match Eval(source, env, fuel)
         case None => None
         case Some((x, e1)) => Some((x, e1[target.sym := x])))
    case Seq(a, b) =>
      (match Eval(a, env, fuel) case None => None case Some((_, e1)) => Eval(b, e1, fuel))
    case If(c, a, b) =>
      (match Eval(c, env, fuel) case None => None case Some((x, e1)) => if x != 0 then Eval(a, e1, fuel) else Eval(b, e1, fuel))
    case While(c, b) =>
      (match Eval(c, env, fuel)
       case None => None
       case Some((x, e1)) =>
         if x == 0 then Some((0, e1))
         else if fuel == 0 then None
         else
           match Eval(b, e1, fuel)
           case None => None
           case Some((_, e2)) => Eval(n, e2, fuel - 1))
  }

  predicate AssignsTo(n: Node, s: Symbol) {
    match n
    case Lit(_) => false
    case Ref(_) => false
    case Op(_, a, b) => AssignsTo(a, s) || AssignsTo(b, s)
    case Assign(a, b) => a == Ref(s) || AssignsTo(a, s) || AssignsTo(b, s)
    case Seq(a, b) => AssignsTo(a, s) || AssignsTo(b, s)
    case If(c, a, b) => AssignsTo(c, s) || AssignsTo(a, s) || AssignsTo(b, s)
    case While(c, b) => AssignsTo(c, s) || AssignsTo(b, s)
  }

  /** Equal but for what they say of `s`. */
  ghost predicate SameBut(e: Env, f: Env, s: Symbol) {
    forall t :: t != s ==> (t in e <==> t in f) && (t in e ==> e[t] == f[t])
  }

  /** Both stuck, or the same value and environments that are equal but for `s`, which is still `v` on the left. */
  ghost predicate Matches(a: Option<(int, Env)>, b: Option<(int, Env)>, s: Symbol, v: int) {
    match (a, b)
    case (None, None) => true
    case (Some((x, e)), Some((y, f))) => x == y && SameBut(e, f, s) && Lookup(e, s) == v
    case _ => false
  }

  /** Running the specialised copy is running the original with the symbol bound to the literal. */
  lemma {:induction false} Specialises(n: Node, s: Symbol, v: int, e: Env, f: Env, fuel: nat)
    requires !AssignsTo(n, s) && SameBut(e, f, s) && Lookup(e, s) == v
    ensures Matches(Eval(n, e, fuel), Eval(Subst(n, s, Lit(v)), f, fuel), s, v)
    decreases fuel, Height(n), 0
  {
    match n
    case Lit(_) =>
    case Ref(_) =>
    case Op(_, a, b) => SpecialisesInOrder(a, b, s, v, e, f, fuel);
    case Assign(a, b) =>
      assert a.Ref? <==> Subst(a, s, Lit(v)).Ref?;
      Specialises(b, s, v, e, f, fuel);
    case Seq(a, b) => SpecialisesInOrder(a, b, s, v, e, f, fuel);
    case If(c, a, b) =>
      Specialises(c, s, v, e, f, fuel);
      if Eval(c, e, fuel) != None {
        var (e1, f1) := (Eval(c, e, fuel).value.1, Eval(Subst(c, s, Lit(v)), f, fuel).value.1);
        Specialises(a, s, v, e1, f1, fuel);
        Specialises(b, s, v, e1, f1, fuel);
      }
    case While(c, b) =>
      SpecialisesInOrder(c, b, s, v, e, f, fuel);
      if fuel > 0 && Eval(c, e, fuel) != None {
        var (e1, f1) := (Eval(c, e, fuel).value.1, Eval(Subst(c, s, Lit(v)), f, fuel).value.1);
        if Eval(b, e1, fuel) != None {
          var (e2, f2) := (Eval(b, e1, fuel).value.1, Eval(Subst(b, s, Lit(v)), f1, fuel).value.1);
          Specialises(n, s, v, e2, f2, fuel - 1);
        }
      }
  }

  /** ... for two parts, one after the other. */
  lemma {:induction false} SpecialisesInOrder(a: Node, b: Node, s: Symbol, v: int, e: Env, f: Env, fuel: nat)
    requires !AssignsTo(a, s) && !AssignsTo(b, s) && SameBut(e, f, s) && Lookup(e, s) == v
    ensures Matches(Eval(a, e, fuel), Eval(Subst(a, s, Lit(v)), f, fuel), s, v)
    ensures Eval(a, e, fuel) != None ==>
              Matches(Eval(b, Eval(a, e, fuel).value.1, fuel),
                      Eval(Subst(b, s, Lit(v)), Eval(Subst(a, s, Lit(v)), f, fuel).value.1, fuel), s, v)
    decreases fuel, Max(Height(a), Height(b)), 1
  {
    Specialises(a, s, v, e, f, fuel);
    if Eval(a, e, fuel) != None {
      Specialises(b, s, v, Eval(a, e, fuel).value.1, Eval(Subst(a, s, Lit(v)), f, fuel).value.1, fuel);
    }
  }

  /** Every assignment has a reference on its left. */
  predicate Assignable(n: Node) {
    match n
    case Lit(_) => true
    case Ref(_) => true
    case Op(_, a, b) => Assignable(a) && Assignable(b)
    case Assign(a, b) => a.Ref? && Assignable(b)
    case Seq(a, b) => Assignable(a) && Assignable(b)
    case If(c, a, b) => Assignable(c) && Assignable(a) && Assignable(b)
    case While(c, b) => Assignable(c) && Assignable(b)
  }

  /** A literal in place of a symbol leaves a proper program exactly if the program does not assign to the symbol. */
  lemma {:induction false} StillAssignable(n: Node, s: Symbol, v: int)
    requires Assignable(n)
    ensures Assignable(Subst(n, s, Lit(v))) <==> !AssignsTo(n, s)
  {
    match n
    case Lit(_) =>
    case Ref(_) =>
    case Op(_, a, b) => StillAssignable(a, s, v); StillAssignable(b, s, v);
    case Assign(a, b) => StillAssignable(b, s, v);
    case Seq(a, b) => StillAssignable(a, s, v); StillAssignable(b, s, v);
    case If(c, a, b) => StillAssignable(c, s, v); StillAssignable(a, s, v); StillAssignable(b, s, v);
    case While(c, b) => StillAssignable(c, s, v); StillAssignable(b, s, v);
  }
}
