/**
 Instrumentation of variable accesses: a bottom-up pass over an expression that puts a hook in front
 of every variable reference by means of the comma operator, `x` becoming `(beforeRead(), x)`.
 */
module Intervene {

  import opened Optional

  datatype Hook = BeforeRead | BeforeWrite

  datatype UnaryOp = Negate | Deref | AddressOf | Increment
  datatype BinaryOp = Add | Subtract | Less

  datatype Expr =
    | Lit(n: int)
    | Var(x: int)
    | HookCall(hook: Hook)
    | Unary(uop: UnaryOp, e: Expr)
    | Binary(bop: BinaryOp, l: Expr, r: Expr)
    | Comma(l: Expr, r: Expr)
    | Assign(l: Expr, r: Expr)
    | Dot(l: Expr, r: Expr)
    | Call(f: int, args: List)
    | Conditional(c: Expr, t: Expr, f_: Expr)

  /** An expression list, the parent of a call's arguments. */
  datatype List = Nil | Cons(head: Expr, tail: List)

  // ------------------------------------------------------------------ the pass

  /** `instrumentRead` on a child, if the child is a variable reference. */
  function WrapRead(child: Expr): Expr {
    if child.Var? then Comma(HookCall(BeforeRead), child) else child
  }

  function WrapWrite(child: Expr): Expr {
    Comma(HookCall(BeforeWrite), child)
  }

  /**
   `evaluateSynthesizedAttribute`, after the children have been visited.  A plain assignment to a
   variable wraps its left side and then looks no further; any other node wraps all children that are
   variable references.  `None` is the failed assertion for parents it cannot handle.
   */
  function Visit(e: Expr): Option<Expr> {
    match e
    case Lit(_) => Some(e)
    case Var(_) => Some(e)
    case HookCall(_) => Some(e)
    case Unary(op, k) =>
      (match Visit(k) case None => None case Some(k') => Some(Unary(op, WrapRead(k'))))
    case Binary(op, l, r) =>
      (match (Visit(l), Visit(r)) case (Some(l'), Some(r')) => Some(Binary(op, WrapRead(l'), WrapRead(r'))) case _ => None)
    case Comma(l, r) =>
      (match (Visit(l), Visit(r)) case (Some(l'), Some(r')) => Some(Comma(WrapRead(l'), WrapRead(r'))) case _ => None)
    case Dot(l, r) =>
      (match (Visit(l), Visit(r)) case (Some(l'), Some(r')) => Some(Dot(WrapRead(l'), WrapRead(r'))) case _ => None)
    case Assign(l, r) =>
      (match (Visit(l), Visit(r))
       case (Some(l'), Some(r')) => if l'.Var? then Some(Assign(WrapWrite(l'), r')) else Some(Assign(l', WrapRead(r')))
       case _ => None)
    case Call(f, args) =>
      (match VisitList(args) case None => None case Some(args') => Some(Call(f, args')))
    case Conditional(c, t, f) =>
      match (Visit(c), Visit(t), Visit(f))
      case (Some(c'), Some(t'), Some(f')) =>
        if c'.Var? || t'.Var? || f'.Var? then None else Some(Conditional(c', t', f'))
      case _ => None
  }

  function VisitList(args: List): Option<List> {
    match args
    case Nil => Some(Nil)
    case Cons(h, t) =>
      match (Visit(h), VisitList(t))
      case (Some(h'), Some(t')) => Some(Cons(WrapRead(h'), t'))
      case _ => None
  }

  // ------------------------------------------------------------------ what it does, from the outside

  /** How a reference is used by its parent: read, assigned to, or left alone. */
  datatype Role = Read | Write | Untouched

  /** The instrumented expression, given from the top down: a reference gets at most one hook, by its role. */
  function Marked(e: Expr, role: Role): Expr {
    match e
    case Lit(_) => e
    case Var(_) => (match role case Read => Comma(HookCall(BeforeRead), e) case Write => Comma(HookCall(BeforeWrite), e) case Untouched => e)
    case HookCall(_) => e
    case Unary(op, k) => Unary(op, Marked(k, Read))
    case Binary(op, l, r) => Binary(op, Marked(l, Read), Marked(r, Read))
    case Comma(l, r) => Comma(Marked(l, Read), Marked(r, Read))
    case Dot(l, r) => Dot(Marked(l, Read), Marked(r, Read))
    case Assign(l, r) => Assign(Marked(l, Write), Marked(r, if l.Var? then Untouched else Read))
    case Call(f, args) => Call(f, MarkedList(args))
    case Conditional(c, t, f) => Conditional(Marked(c, Untouched), Marked(t, Untouched), Marked(f, Untouched))
  }

  function MarkedList(args: List): List {
    match args
    case Nil => Nil
    case Cons(h, t) => Cons(Marked(h, Read), MarkedList(t))
  }

  /** No conditional expression has a variable reference as an immediate operand. */
  predicate Supported(e: Expr) {
    match e
    case Lit(_) => true
    case Var(_) => true
    case HookCall(_) => true
    case Unary(_, k) => Supported(k)
    case Binary(_, l, r) => Supported(l) && Supported(r)
    case Comma(l, r) => Supported(l) && Supported(r)
    case Dot(l, r) => Supported(l) && Supported(r)
    case Assign(l, r) => Supported(l) && Supported(r)
    case Call(_, args) => SupportedList(args)
    case Conditional(c, t, f) => !c.Var? && !t.Var? && !f.Var? && Supported(c) && Supported(t) && Supported(f)
  }

  predicate SupportedList(args: List) {
    match args
    case Nil => true
    case Cons(h, t) => Supported(h) && SupportedList(t)
  }

  /** The bottom-up pass succeeds exactly on supported expressions, and agrees with the description from the top. */
  lemma {:induction false} VisitIsMarked(e: Expr)
    ensures Visit(e) == if Supported(e) then Some(Marked(e, Untouched)) else None
    ensures forall role :: !e.Var? ==> Marked(e, role) == Marked(e, Untouched)
  {
    match e
    case Lit(_) =>
    case Var(_) =>
    case HookCall(_) =>
    case Unary(_, k) => VisitIsMarked(k);
    case Binary(_, l, r) => VisitIsMarked(l); VisitIsMarked(r);
    case Comma(l, r) => VisitIsMarked(l); VisitIsMarked(r);
    case Dot(l, r) => VisitIsMarked(l); VisitIsMarked(r);
    case Assign(l, r) => VisitIsMarked(l); VisitIsMarked(r);
    case Call(_, args) => VisitListIsMarked(args);
    case Conditional(c, t, f) => VisitIsMarked(c); VisitIsMarked(t); VisitIsMarked(f);
  }

  lemma {:induction false} VisitListIsMarked(args: List)
    ensures VisitList(args) == if SupportedList(args) then Some(MarkedList(args)) else None
  {
    match args
    case Nil =>
    case Cons(h, t) => VisitIsMarked(h); VisitListIsMarked(t);
  }

  /** Bare references below each kind of node: what is written gets the one hook, what is read the other, and some get none. */
  lemma {:induction false} BareOperands(x: int, y: int, z: int, uop: UnaryOp, bop: BinaryOp, f: int)
    ensures Visit(Assign(Var(x), Var(y))) == Some(Assign(Comma(HookCall(BeforeWrite), Var(x)), Var(y)))
    ensures Visit(Assign(Unary(Deref, Var(x)), Var(y)))
         == Some(Assign(Unary(Deref, Comma(HookCall(BeforeRead), Var(x))), Comma(HookCall(BeforeRead), Var(y))))
    ensures Visit(Unary(uop, Var(x))) == Some(Unary(uop, Comma(HookCall(BeforeRead), Var(x))))
    ensures Visit(Binary(bop, Var(x), Var(y)))
         == Some(Binary(bop, Comma(HookCall(BeforeRead), Var(x)), Comma(HookCall(BeforeRead), Var(y))))
    ensures Visit(Comma(Var(x), Var(y))) == Some(Comma(Comma(HookCall(BeforeRead), Var(x)), Comma(HookCall(BeforeRead), Var(y))))
    ensures Visit(Call(f, Cons(Var(x), Nil))) == Some(Call(f, Cons(Comma(HookCall(BeforeRead), Var(x)), Nil)))
    ensures Visit(Conditional(Var(x), Lit(y), Lit(z))).None? && Visit(Var(x)) == Some(Var(x))
  {
    assert VisitList(Cons(Var(x), Nil)) == Some(Cons(Comma(HookCall(BeforeRead), Var(x)), Nil)) by {
      assert VisitList(Nil) == Some(Nil) && Visit(Var(x)) == Some(Var(x));
    }
  }

  // ------------------------------------------------------------------ meaning

  function Size(e: Expr): nat {
    match e
    case Lit(_) => 1
    case Var(_) => 1
    case HookCall(_) => 1
    case Unary(_, k) => 1 + Size(k)
    case Binary(_, l, r) => 1 + Size(l) + Size(r)
    case Comma(l, r) => 1 + Size(l) + Size(r)
    case Dot(l, r) => 1 + Size(l) + Size(r)
    case Assign(l, r) => 1 + Size(l) + Size(r)
    case Call(_, args) => 1 + SizeList(args)
    case Conditional(c, t, f) => 1 + Size(c) + Size(t) + Size(f)
  }

  function SizeList(args: List): nat {
    match args
    case Nil => 1
    case Cons(h, t) => 1 + Size(h) + SizeList(t)
  }

  type Memory = map<int, int>

  /** What a called function does: any value and any effect on memory. */
  type Library = (int, seq<int>, Memory) -> (int, Memory)

  datatype State = State(mem: Memory, log: seq<Hook>)

  function Fetch(m: Memory, a: int): int {
    if a in m then m[a] else 0
  }

  /** The value of the object at `a`, or its address if an lvalue is asked for. */
  function Object(lvalue: bool, a: int, st: State): Option<(int, State)> {
    Some((if lvalue then a else Fetch(st.mem, a), st))
  }

  function Calculate(op: BinaryOp, x: int, y: int): int {
    match op
    case Add => x + y
    case Subtract => x - y
    case Less => if x < y then 1 else 0
  }

  /** The hook that goes with an access, if accesses are observed. */
  function Observe(observed: bool, role: Role, st: State): State {
    match role
    case Read => if observed then st.(log := st.log + [BeforeRead]) else st
    case Write => if observed then st.(log := st.log + [BeforeWrite]) else st
    case Untouched => st
  }

  /**
   The value (or, for an lvalue, the address) of an expression and the state afterwards; `None` if it has
   none.  Operands are evaluated left to right; a comma expression is an lvalue if its right side is.
   With `observed` set, a reference is preceded by the hook of its role: the reference semantics.
   */
  function Eval(lib: Library, observed: bool, e: Expr, role: Role, lvalue: bool, st: State): Option<(int, State)>
    decreases Size(e), 1
  {
    match e
    case Lit(n) => if lvalue then None else Some((n, st))
    case Var(x) => Object(lvalue, x, Observe(observed, role, st))
    case HookCall(h) => if lvalue then None else Some((0, st.(log := st.log + [h])))
    case Unary(op, k) => EvalUnary(lib, observed, op, k, lvalue, st)
    case Binary(op, l, r) =>
      if lvalue then None
      else
        (match EvalBoth(lib, observed, l, Read, false, r, Read, false, st)
         case None => None
         case Some((x, y, st')) => Some((Calculate(op, x, y), st')))
    case Comma(l, r) =>
      (match EvalBoth(lib, observed, l, Read, false, r, Read, lvalue, st)
       case None => None
       case Some((_, y, st')) => Some((y, st')))
    case Assign(l, r) =>
      (match EvalBoth(lib, observed, l, Write, true, r, if l.Var? then Untouched else Read, false, st)
       case None => None
       case Some((a, v, st')) => Some((if lvalue then a else v, st'.(mem := st'.mem[a := v]))))
    case Dot(l, r) =>
      if !r.Var? then None
      else
        (match Eval(lib, observed, l, Read, true, st)
         case None => None
         case Some((a, st')) => Object(lvalue, a + r.x, st'))
    case Call(f, args) =>
      if lvalue then None
      else
        (match EvalList(lib, observed, args, st)
         case None => None
         case Some((vs, st')) => var (v, m) := lib(f, vs, st'.mem); Some((v, st'.(mem := m))))
    case Conditional(c, t, f) =>
      match Eval(lib, observed, c, Untouched, false, st)
      case None => None
      case Some((x, st')) =>
        if x != 0 then Eval(lib, observed, t, Untouched, lvalue, st') else Eval(lib, observed, f, Untouched, lvalue, st')
  }

  function EvalUnary(lib: Library, observed: bool, op: UnaryOp, k: Expr, lvalue: bool, st: State): Option<(int, State)>
    decreases 1 + Size(k), 0
  {
    match op
    case Negate =>
      if lvalue then None
      else (match Eval(lib, observed, k, Read, false, st) case None => None case Some((x, st')) => Some((-x, st')))
    case Deref =>
      (match Eval(lib, observed, k, Read, false, st) case None => None case Some((a, st')) => Object(lvalue, a, st'))
    case AddressOf =>
      if lvalue then None else Eval(lib, observed, k, Read, true, st)
    case Increment =>
      match Eval(lib, observed, k, Read, true, st)
      case None => None
      case Some((a, st')) => Object(lvalue, a, st'.(mem := st'.mem[a := Fetch(st'.mem, a) + 1]))
  }

  function EvalBoth(lib: Library, observed: bool, l: Expr, roleL: Role, lvalueL: bool, r: Expr, roleR: Role, lvalueR: bool, st: State)
    : Option<(int, int, State)>
    decreases 1 + Size(l) + Size(r), 0
  {
    match Eval(lib, observed, l, roleL, lvalueL, st)
    case None => None
    case Some((x, st1)) =>
      match Eval(lib, observed, r, roleR, lvalueR, st1)
      case None => None
      case Some((y, st2)) => Some((x, y, st2))
  }

  function EvalList(lib: Library, observed: bool, args: List, st: State): Option<(seq<int>, State)>
    decreases SizeList(args), 0
  {
    match args
    case Nil => Some(([], st))
    case Cons(h, t) =>
      match Eval(lib, observed, h, Read, false, st)
      case None => None
      case Some((v, st1)) =>
        match EvalList(lib, observed, t, st1)
        case None => None
        case Some((vs, st2)) => Some(([v] + vs, st2))
  }

  /** The expressions the pass is meant for: no hooks yet, and no member selection. */
  predicate Plain(e: Expr) {
    match e
    case Lit(_) => true
    case Var(_) => true
    case HookCall(_) => false
    case Unary(_, k) => Plain(k)
    case Binary(_, l, r) => Plain(l) && Plain(r)
    case Comma(l, r) => Plain(l) && Plain(r)
    case Dot(l, r) => false
    case Assign(l, r) => Plain(l) && Plain(r)
    case Call(_, args) => PlainList(args)
    case Conditional(c, t, f) => Plain(c) && Plain(t) && Plain(f)
  }

  predicate PlainList(args: List) {
    match args
    case Nil => true
    case Cons(h, t) => Plain(h) && PlainList(t)
  }

  /** A reference with its hook, and the same reference under observation. */
  lemma {:induction false} HookedReference(lib: Library, x: int, role: Role, any: Role, lvalue: bool, st: State)
    ensures Eval(lib, false, Marked(Var(x), role), any, lvalue, st) == Eval(lib, true, Var(x), role, lvalue, st)
  {
    if role != Untouched {
      var h := if role == Read then BeforeRead else BeforeWrite;
      var st1 := st.(log := st.log + [h]);
      assert Marked(Var(x), role) == Comma(HookCall(h), Var(x));
      assert Eval(lib, false, HookCall(h), Read, false, st) == Some((0, st1));
      assert Eval(lib, false, Var(x), Read, lvalue, st1) == Object(lvalue, x, st1);
      assert EvalBoth(lib, false, HookCall(h), Read, false, Var(x), Read, lvalue, st)
          == Some((0, Object(lvalue, x, st1).value.0, st1));
    }
  }

  /** Two operands that behave alike one by one behave alike together. */
  lemma BothAlike(lib: Library, l: Expr, l': Expr, roleL: Role, anyL: Role, lvalueL: bool,
                                     r: Expr, r': Expr, roleR: Role, anyR: Role, lvalueR: bool, st: State)
    requires Eval(lib, false, l', anyL, lvalueL, st) == Eval(lib, true, l, roleL, lvalueL, st)
    requires Eval(lib, true, l, roleL, lvalueL, st).Some? ==>
               var st1 := Eval(lib, true, l, roleL, lvalueL, st).value.1;
               Eval(lib, false, r', anyR, lvalueR, st1) == Eval(lib, true, r, roleR, lvalueR, st1)
    ensures EvalBoth(lib, false, l', anyL, lvalueL, r', anyR, lvalueR, st)
         == EvalBoth(lib, true, l, roleL, lvalueL, r, roleR, lvalueR, st)
  {
  }

  /** Running the instrumented expression is running the original under observation, hook by hook. */
  lemma {:induction false} HooksFollowAccesses(lib: Library, e: Expr, role: Role, any: Role, lvalue: bool, st: State)
    requires Plain(e) && Supported(e)
    ensures Eval(lib, false, Marked(e, role), any, lvalue, st) == Eval(lib, true, e, role, lvalue, st)
    decreases Size(e), 1
  {
    match e
    case Lit(_) =>
    case Var(x) => HookedReference(lib, x, role, any, lvalue, st);
    case Unary(_, k) =>
      HooksFollowAccesses(lib, k, Read, Read, false, st);
      HooksFollowAccesses(lib, k, Read, Read, true, st);
    case Binary(_, l, r) => HooksFollowBoth(lib, l, Read, Read, false, r, Read, Read, false, st);
    case Comma(l, r) => HooksFollowBoth(lib, l, Read, Read, false, r, Read, Read, lvalue, st);
    case Assign(l, r) =>
      var role := if l.Var? then Untouched else Read;
      HooksFollowBoth(lib, l, Write, Write, true, r, role, if Marked(l, Write).Var? then Untouched else Read, false, st);
    case Call(_, args) => HooksFollowList(lib, args, st);
    case Conditional(c, t, f) =>
      HooksFollowConditional(lib, c, t, f, role, any, lvalue, st);
  }

  lemma {:induction false} HooksFollowConditional(lib: Library, c: Expr, t: Expr, f: Expr, role: Role, any: Role, lvalue: bool, st: State)
    requires Plain(Conditional(c, t, f)) && Supported(Conditional(c, t, f))
    ensures Eval(lib, false, Marked(Conditional(c, t, f), role), any, lvalue, st) == Eval(lib, true, Conditional(c, t, f), role, lvalue, st)
    decreases 1 + Size(c) + Size(t) + Size(f), 0
  {
    HooksFollowAccesses(lib, c, Untouched, Untouched, false, st);
    if Eval(lib, true, c, Untouched, false, st).Some? {
      var st' := Eval(lib, true, c, Untouched, false, st).value.1;
      HooksFollowAccesses(lib, t, Untouched, Untouched, lvalue, st');
      HooksFollowAccesses(lib, f, Untouched, Untouched, lvalue, st');
    }
  }

  lemma {:induction false} HooksFollowBoth(lib: Library, l: Expr, roleL: Role, anyL: Role, lvalueL: bool,
                                           r: Expr, roleR: Role, anyR: Role, lvalueR: bool, st: State)
    requires Plain(l) && Supported(l) && Plain(r) && Supported(r)
    ensures EvalBoth(lib, false, Marked(l, roleL), anyL, lvalueL, Marked(r, roleR), anyR, lvalueR, st)
         == EvalBoth(lib, true, l, roleL, lvalueL, r, roleR, lvalueR, st)
    decreases 1 + Size(l) + Size(r), 0
  {
    HooksFollowAccesses(lib, l, roleL, anyL, lvalueL, st);
    if Eval(lib, true, l, roleL, lvalueL, st).Some? {
      HooksFollowAccesses(lib, r, roleR, anyR, lvalueR, Eval(lib, true, l, roleL, lvalueL, st).value.1);
    }
    BothAlike(lib, l, Marked(l, roleL), roleL, anyL, lvalueL, r, Marked(r, roleR), roleR, anyR, lvalueR, st);
  }

  lemma {:induction false} HooksFollowList(lib: Library, args: List, st: State)
    requires PlainList(args) && SupportedList(args)
    ensures EvalList(lib, false, MarkedList(args), st) == EvalList(lib, true, args, st)
    decreases SizeList(args), 0
  {
    match args
    case Nil =>
    case Cons(h, t) =>
      HooksFollowAccesses(lib, h, Read, Read, false, st);
      if Eval(lib, true, h, Read, false, st).Some? {
        HooksFollowList(lib, t, Eval(lib, true, h, Read, false, st).value.1);
      }
  }

  // ------------------------------------------------------------------ observing changes nothing

  /** The same value and memory, or no value on both sides; the logs may differ. */
  predicate SameOutcome(a: Option<(int, State)>, b: Option<(int, State)>) {
    match (a, b)
    case (None, None) => true
    case (Some((x, s)), Some((y, t))) => x == y && s.mem == t.mem
    case _ => false
  }

  predicate SamePair(a: Option<(int, int, State)>, b: Option<(int, int, State)>) {
    match (a, b)
    case (None, None) => true
    case (Some((x, x', s)), Some((y, y', t))) => x == y && x' == y' && s.mem == t.mem
    case _ => false
  }

  predicate SameList(a: Option<(seq<int>, State)>, b: Option<(seq<int>, State)>) {
    match (a, b)
    case (None, None) => true
    case (Some((x, s)), Some((y, t))) => x == y && s.mem == t.mem
    case _ => false
  }

  lemma {:induction false} ObservingIsHarmless(lib: Library, e: Expr, role: Role, any: Role, lvalue: bool, st: State, t: State)
    requires st.mem == t.mem
    ensures SameOutcome(Eval(lib, true, e, role, lvalue, st), Eval(lib, false, e, any, lvalue, t))
    decreases Size(e), 1
  {
    match e
    case Lit(_) =>
    case Var(_) =>
    case HookCall(_) =>
    case Unary(op, k) =>
      ObservingIsHarmless(lib, k, Read, Read, false, st, t);
      ObservingIsHarmless(lib, k, Read, Read, true, st, t);
      UnaryAlike(lib, op, k, lvalue, st, t);
    case Binary(_, l, r) => ObservingBoth(lib, l, Read, false, r, Read, false, st, t);
    case Comma(l, r) => ObservingBoth(lib, l, Read, false, r, Read, lvalue, st, t);
    case Assign(l, r) => ObservingBoth(lib, l, Write, true, r, if l.Var? then Untouched else Read, false, st, t);
    case Dot(l, r) => ObservingIsHarmless(lib, l, Read, Read, true, st, t);
    case Call(_, args) => ObservingList(lib, args, st, t);
    case Conditional(c, a, b) =>
      ObservingIsHarmless(lib, c, Untouched, Untouched, false, st, t);
      var x, y := Eval(lib, true, c, Untouched, false, st), Eval(lib, false, c, Untouched, false, t);
      if x.Some? {
        ObservingIsHarmless(lib, a, Untouched, Untouched, lvalue, x.value.1, y.value.1);
        ObservingIsHarmless(lib, b, Untouched, Untouched, lvalue, x.value.1, y.value.1);
      }
  }

  lemma {:induction false} UnaryAlike(lib: Library, op: UnaryOp, k: Expr, lvalue: bool, st: State, t: State)
    requires SameOutcome(Eval(lib, true, k, Read, false, st), Eval(lib, false, k, Read, false, t))
    requires SameOutcome(Eval(lib, true, k, Read, true, st), Eval(lib, false, k, Read, true, t))
    ensures SameOutcome(EvalUnary(lib, true, op, k, lvalue, st), EvalUnary(lib, false, op, k, lvalue, t))
  {
    match op
    case Negate =>
    case Deref =>
    case AddressOf =>
    case Increment =>
  }

  lemma {:induction false} ObservingBoth(lib: Library, l: Expr, roleL: Role, lvalueL: bool, r: Expr, roleR: Role, lvalueR: bool,
                                         st: State, t: State)
    requires st.mem == t.mem
    ensures SamePair(EvalBoth(lib, true, l, roleL, lvalueL, r, roleR, lvalueR, st),
                     EvalBoth(lib, false, l, roleL, lvalueL, r, roleR, lvalueR, t))
    decreases 1 + Size(l) + Size(r), 0
  {
    ObservingIsHarmless(lib, l, roleL, roleL, lvalueL, st, t);
    var x, y := Eval(lib, true, l, roleL, lvalueL, st), Eval(lib, false, l, roleL, lvalueL, t);
    if x.Some? {
      ObservingIsHarmless(lib, r, roleR, roleR, lvalueR, x.value.1, y.value.1);
    }
    PairsAlike(lib, l, roleL, lvalueL, r, roleR, lvalueR, st, t);
  }

  lemma PairsAlike(lib: Library, l: Expr, roleL: Role, lvalueL: bool, r: Expr, roleR: Role, lvalueR: bool,
                                      st: State, t: State)
    requires SameOutcome(Eval(lib, true, l, roleL, lvalueL, st), Eval(lib, false, l, roleL, lvalueL, t))
    requires Eval(lib, true, l, roleL, lvalueL, st).Some? ==>
               SameOutcome(Eval(lib, true, r, roleR, lvalueR, Eval(lib, true, l, roleL, lvalueL, st).value.1),
                           Eval(lib, false, r, roleR, lvalueR, Eval(lib, false, l, roleL, lvalueL, t).value.1))
    ensures SamePair(EvalBoth(lib, true, l, roleL, lvalueL, r, roleR, lvalueR, st),
                     EvalBoth(lib, false, l, roleL, lvalueL, r, roleR, lvalueR, t))
  {
  }

  lemma {:induction false} ObservingList(lib: Library, args: List, st: State, t: State)
    requires st.mem == t.mem
    ensures SameList(EvalList(lib, true, args, st), EvalList(lib, false, args, t))
    decreases SizeList(args), 0
  {
    match args
    case Nil =>
    case Cons(h, rest) =>
      ObservingIsHarmless(lib, h, Read, Read, false, st, t);
      var x, y := Eval(lib, true, h, Read, false, st), Eval(lib, false, h, Read, false, t);
      if x.Some? {
        ObservingList(lib, rest, x.value.1, y.value.1);
      }
  }

  /** The pass preserves value and memory of every expression it is meant for. */
  lemma {:induction false} InstrumentationPreserves(lib: Library, e: Expr, lvalue: bool, st: State)
    requires Plain(e) && Visit(e).Some?
    ensures SameOutcome(Eval(lib, false, Visit(e).value, Read, lvalue, st), Eval(lib, false, e, Read, lvalue, st))
  {
    VisitIsMarked(e);
    HooksFollowAccesses(lib, e, Untouched, Read, lvalue, st);
    ObservingIsHarmless(lib, e, Untouched, Read, lvalue, st, st);
  }

  // ------------------------------------------------------------------ each reference once

  /** The expression with every hook removed again. */
  function Stripped(e: Expr): Expr {
    match e
    case Lit(_) => e
    case Var(_) => e
    case HookCall(_) => e
    case Unary(op, k) => Unary(op, Stripped(k))
    case Binary(op, l, r) => Binary(op, Stripped(l), Stripped(r))
    case Comma(l, r) => if l.HookCall? then Stripped(r) else Comma(Stripped(l), Stripped(r))
    case Dot(l, r) => Dot(Stripped(l), Stripped(r))
    case Assign(l, r) => Assign(Stripped(l), Stripped(r))
    case Call(f, args) => Call(f, StrippedList(args))
    case Conditional(c, t, f) => Conditional(Stripped(c), Stripped(t), Stripped(f))
  }

  function StrippedList(args: List): List {
    match args
    case Nil => Nil
    case Cons(h, t) => Cons(Stripped(h), StrippedList(t))
  }

  /** The number of hooks in an expression. */
  function Hooks(e: Expr): nat {
    match e
    case Lit(_) => 0
    case Var(_) => 0
    case HookCall(_) => 1
    case Unary(_, k) => Hooks(k)
    case Binary(_, l, r) => Hooks(l) + Hooks(r)
    case Comma(l, r) => Hooks(l) + Hooks(r)
    case Dot(l, r) => Hooks(l) + Hooks(r)
    case Assign(l, r) => Hooks(l) + Hooks(r)
    case Call(_, args) => HooksInList(args)
    case Conditional(c, t, f) => Hooks(c) + Hooks(t) + Hooks(f)
  }

  function HooksInList(args: List): nat {
    match args
    case Nil => 0
    case Cons(h, t) => Hooks(h) + HooksInList(t)
  }

  /** The references that are to get a hook: all but the bare right sides of assignments to a bare variable. */
  function Accesses(e: Expr, role: Role): nat {
    match e
    case Lit(_) => 0
    case Var(_) => if role == Untouched then 0 else 1
    case HookCall(_) => 0
    case Unary(_, k) => Accesses(k, Read)
    case Binary(_, l, r) => Accesses(l, Read) + Accesses(r, Read)
    case Comma(l, r) => Accesses(l, Read) + Accesses(r, Read)
    case Dot(l, r) => Accesses(l, Read) + Accesses(r, Read)
    case Assign(l, r) => if l.Var? && r.Var? then 1 else Accesses(l, Write) + Accesses(r, Read)
    case Call(_, args) => AccessesInList(args)
    case Conditional(c, t, f) => Accesses(c, Untouched) + Accesses(t, Untouched) + Accesses(f, Untouched)
  }

  function AccessesInList(args: List): nat {
    match args
    case Nil => 0
    case Cons(h, t) => Accesses(h, Read) + AccessesInList(t)
  }

  /** No hooks to begin with. */
  predicate Hookless(e: Expr) {
    Hooks(e) == 0
  }

  /** Removing the hooks gives the original back, and there is one hook for each access. */
  lemma {:induction false} OneHookEach(e: Expr, role: Role)
    requires Hookless(e)
    ensures Stripped(Marked(e, role)) == e && Hooks(Marked(e, role)) == Accesses(e, role)
  {
    match e
    case Lit(_) =>
    case Var(_) =>
    case Unary(_, k) => OneHookEach(k, Read);
    case Binary(_, l, r) => OneHookEach(l, Read); OneHookEach(r, Read);
    case Comma(l, r) => OneHookEach(l, Read); OneHookEach(r, Read);
    case Dot(l, r) => OneHookEach(l, Read); OneHookEach(r, Read);
    case Assign(l, r) => OneHookEach(l, Write); OneHookEach(r, Read); OneHookEach(r, Untouched); SameUnlessVar(r);
    case Call(_, args) => OneHookEachInList(args);
    case Conditional(c, t, f) => OneHookEach(c, Untouched); OneHookEach(t, Untouched); OneHookEach(f, Untouched);
  }

  lemma SameUnlessVar(e: Expr)
    ensures !e.Var? ==> Accesses(e, Untouched) == Accesses(e, Read)
  {
  }

  lemma {:induction false} OneHookEachInList(args: List)
    requires HooksInList(args) == 0
    ensures StrippedList(MarkedList(args)) == args && HooksInList(MarkedList(args)) == AccessesInList(args)
  {
    match args
    case Nil =>
    case Cons(h, t) => OneHookEach(h, Read); OneHookEachInList(t);
  }

  // ------------------------------------------------------------------ member selection

  /** Every member selection names its member by a bare reference. */
  predicate WellFormed(e: Expr) {
    match e
    case Lit(_) => true
    case Var(_) => true
    case HookCall(_) => true
    case Unary(_, k) => WellFormed(k)
    case Binary(_, l, r) => WellFormed(l) && WellFormed(r)
    case Comma(l, r) => WellFormed(l) && WellFormed(r)
    case Dot(l, r) => WellFormed(l) && r.Var?
    case Assign(l, r) => WellFormed(l) && WellFormed(r)
    case Call(_, args) => WellFormedList(args)
    case Conditional(c, t, f) => WellFormed(c) && WellFormed(t) && WellFormed(f)
  }

  predicate WellFormedList(args: List) {
    match args
    case Nil => true
    case Cons(h, t) => WellFormed(h) && WellFormedList(t)
  }

  /** The member name is a variable reference too, so it gets a hook: only expressions without members survive. */
  lemma {:induction false} MembersBreak(e: Expr, role: Role)
    requires Hookless(e) && WellFormed(e)
    ensures WellFormed(Marked(e, role)) <==> Plain(e)
  {
    match e
    case Lit(_) =>
    case Var(_) =>
    case Unary(_, k) => MembersBreak(k, Read);
    case Binary(_, l, r) => MembersBreak(l, Read); MembersBreak(r, Read);
    case Comma(l, r) => MembersBreak(l, Read); MembersBreak(r, Read);
    case Dot(l, r) =>
    case Assign(l, r) => MembersBreak(l, Write); MembersBreak(r, if l.Var? then Untouched else Read);
    case Call(_, args) => MembersBreakInList(args);
    case Conditional(c, t, f) => MembersBreak(c, Untouched); MembersBreak(t, Untouched); MembersBreak(f, Untouched);
  }

  lemma {:induction false} MembersBreakInList(args: List)
    requires HooksInList(args) == 0 && WellFormedList(args)
    ensures WellFormedList(MarkedList(args)) <==> PlainList(args)
  {
    match args
    case Nil =>
    case Cons(h, t) => MembersBreak(h, Read); MembersBreakInList(t);
  }

  /** For instance `s.f`, which has a value, becomes something that has none. */
  lemma {:induction false} MemberExample(lib: Library, st: State, s: int, f: int)
    ensures Visit(Dot(Var(s), Var(f))).Some?
    ensures Eval(lib, false, Dot(Var(s), Var(f)), Read, false, st).Some?
    ensures Eval(lib, false, Visit(Dot(Var(s), Var(f))).value, Read, false, st).None?
  {
    assert Eval(lib, false, Var(s), Read, true, st) == Object(true, s, st);
  }
}
