/**
 The instrumentation as it is done, in place: a traversal comes to every node of the syntax tree once,
 after its children, and replaces operands of that node by comma expressions.
 */
module InterveneAst {
  import opened Sequences
  import opened Intervene

  type Id = nat

  /** The kinds of nodes; a call has one child, its expression list. */
  datatype Kind =
    | LitNode(n: int)
    | VarNode(x: int)
    | HookNode(hook: Hook)
    | UnaryNode(uop: UnaryOp)
    | BinaryNode(bop: BinaryOp)
    | CommaNode
    | AssignNode
    | DotNode
    | CallNode(f: int)
    | ListNode
    | ConditionalNode

  datatype Node = Node(kind: Kind, kids: seq<Id>)

  type Table = map<Id, Node>

  predicate IsBinary(k: Kind) {
    k.BinaryNode? || k == CommaNode || k == AssignNode || k == DotNode
  }

  /** The parents that `instrumentRead` can handle. */
  predicate Handled(k: Kind) {
    k.UnaryNode? || IsBinary(k) || k == ListNode
  }

  predicate ArityFits(node: Node) {
    match node.kind
    case LitNode(_) => node.kids == []
    case VarNode(_) => node.kids == []
    case HookNode(_) => node.kids == []
    case UnaryNode(_) => |node.kids| == 1
    case CallNode(_) => |node.kids| == 1
    case ListNode => true
    case ConditionalNode => |node.kids| == 3
    case _ => |node.kids| == 2
  }

  // ------------------------------------------------------------------ tables and trees

  /** The node and everything below it form the given expression. */
  ghost predicate Represents(nodes: Table, id: Id, e: Expr)
    decreases e
  {
    && id in nodes
    && var kids := nodes[id].kids;
    && match e
       case Lit(n) => nodes[id] == Node(LitNode(n), [])
       case Var(x) => nodes[id] == Node(VarNode(x), [])
       case HookCall(h) => nodes[id] == Node(HookNode(h), [])
       case Unary(op, k) => nodes[id].kind == UnaryNode(op) && |kids| == 1 && Represents(nodes, kids[0], k)
       case Binary(op, l, r) => nodes[id].kind == BinaryNode(op) && |kids| == 2 && Represents(nodes, kids[0], l) && Represents(nodes, kids[1], r)
       case Comma(l, r) => nodes[id].kind == CommaNode && |kids| == 2 && Represents(nodes, kids[0], l) && Represents(nodes, kids[1], r)
       case Assign(l, r) => nodes[id].kind == AssignNode && |kids| == 2 && Represents(nodes, kids[0], l) && Represents(nodes, kids[1], r)
       case Dot(l, r) => nodes[id].kind == DotNode && |kids| == 2 && Represents(nodes, kids[0], l) && Represents(nodes, kids[1], r)
       case Call(f, args) =>
         nodes[id].kind == CallNode(f) && |kids| == 1 && kids[0] in nodes && nodes[kids[0]].kind == ListNode
         && RepresentsList(nodes, nodes[kids[0]].kids, args)
       case Conditional(c, t, f) =>
         nodes[id].kind == ConditionalNode && |kids| == 3
         && Represents(nodes, kids[0], c) && Represents(nodes, kids[1], t) && Represents(nodes, kids[2], f)
  }

  ghost predicate RepresentsList(nodes: Table, ids: seq<Id>, args: List)
    decreases args
  {
    match args
    case Nil => ids == []
    case Cons(h, t) => ids != [] && Represents(nodes, ids[0], h) && RepresentsList(nodes, ids[1..], t)
  }

  // ------------------------------------------------------------------ what becomes of one operand

  predicate IsVar(nodes: Table, id: Id) {
    id in nodes && nodes[id].kind.VarNode?
  }

  /** What a node does to its child `j`. */
  function RoleAt(nodes: Table, n: Id, j: nat): Role
    requires n in nodes && j < |nodes[n].kids|
  {
    var kids := nodes[n].kids;
    if !IsVar(nodes, kids[j]) then Untouched
    else if nodes[n].kind == AssignNode && IsVar(nodes, kids[0]) then if j == 0 then Write else Untouched
    else Read
  }

  function HookOf(role: Role): Hook {
    if role == Write then BeforeWrite else BeforeRead
  }

  /** `id` is a new node `(hook(), v)`. */
  ghost predicate Hooked(nodes: Table, id: Id, h: Hook, v: Id) {
    && id in nodes && nodes[id].kind == CommaNode && |nodes[id].kids| == 2 && nodes[id].kids[1] == v
    && nodes[id].kids[0] in nodes && nodes[nodes[id].kids[0]] == Node(HookNode(h), [])
  }

  ghost predicate KidDone(was: Table, now: Table, n: Id, j: nat)
    requires n in was && n in now && j < |was[n].kids| == |now[n].kids|
  {
    var role, kid, kid' := RoleAt(was, n, j), was[n].kids[j], now[n].kids[j];
    if role == Untouched then kid' == kid
    else kid' !in was && Hooked(now, kid', HookOf(role), kid) && now[kid'].kids[0] !in was
  }

  /** The node has been dealt with: its children are hooked by their roles. */
  ghost predicate Done(was: Table, now: Table, n: Id)
    requires n in was
  {
    && n in now && now[n].kind == was[n].kind && |now[n].kids| == |was[n].kids|
    && forall j {:trigger KidDone(was, now, n, j)} :: 0 <= j < |was[n].kids| ==> KidDone(was, now, n, j)
  }

  /** A node that the pass can handle: where a reference cannot be replaced, there is none. */
  predicate Manageable(nodes: Table, n: Id)
    requires n in nodes
  {
    !Handled(nodes[n].kind) ==> forall j :: 0 <= j < |nodes[n].kids| ==> !IsVar(nodes, nodes[n].kids[j])
  }

  /** The new operand for a child in its role. */
  ghost predicate InPlaceOf(was: Table, now: Table, id': Id, id: Id, role: Role) {
    if role == Untouched || !IsVar(was, id) then id' == id else Hooked(now, id', HookOf(role), id)
  }

  lemma VarIsVar(nodes: Table, id: Id, e: Expr)
    requires Represents(nodes, id, e)
    ensures IsVar(nodes, id) <==> e.Var?
  {
  }

  /** Every node of the original table has been dealt with. */
  ghost predicate AllDone(was: Table, now: Table) {
    forall n {:trigger Done(was, now, n)} :: n in was ==> Done(was, now, n)
  }

  lemma {:induction false} KidInPlace(was: Table, now: Table, n: Id, j: nat, role: Role)
    requires AllDone(was, now) && n in was && j < |was[n].kids|
    requires IsVar(was, was[n].kids[j]) ==> role == RoleAt(was, n, j)
    ensures n in now && now[n].kind == was[n].kind && |now[n].kids| == |was[n].kids|
    ensures InPlaceOf(was, now, now[n].kids[j], was[n].kids[j], role)
  {
    assert Done(was, now, n) && KidDone(was, now, n, j);
  }

  lemma {:induction false} LeafStays(was: Table, now: Table, n: Id)
    requires AllDone(was, now) && n in was && was[n].kids == []
    ensures n in now && now[n] == was[n]
  {
    assert Done(was, now, n);
  }

  /** Then the table holds the instrumented expression. */
  lemma {:induction false} DoneIsMarked(was: Table, now: Table, id: Id, id': Id, e: Expr, role: Role)
    requires AllDone(was, now) && Represents(was, id, e) && Supported(e) && InPlaceOf(was, now, id', id, role)
    ensures Represents(now, id', Marked(e, role))
    decreases Size(e), 1
  {
    VarIsVar(was, id, e);
    match e
    case Lit(_) => LeafStays(was, now, id);
    case Var(_) => MarkedReference(was, now, id, id', e, role);
    case HookCall(_) => LeafStays(was, now, id);
    case Unary(_, k) =>
      KidInPlace(was, now, id, 0, Read);
      DoneIsMarked(was, now, was[id].kids[0], now[id].kids[0], k, Read);
    case Binary(_, l, r) => PairIsMarked(was, now, id, l, Read, r, Read);
    case Comma(l, r) => PairIsMarked(was, now, id, l, Read, r, Read);
    case Dot(l, r) => PairIsMarked(was, now, id, l, Read, r, Read);
    case Assign(l, r) =>
      VarIsVar(was, was[id].kids[0], l);
      PairIsMarked(was, now, id, l, Write, r, if l.Var? then Untouched else Read);
    case Call(_, args) =>
      KidInPlace(was, now, id, 0, Read);
      ListIsMarked(was, now, was[id].kids[0], 0, args);
    case Conditional(c, t, f) =>
      VarIsVar(was, was[id].kids[0], c);
      VarIsVar(was, was[id].kids[1], t);
      VarIsVar(was, was[id].kids[2], f);
      KidInPlace(was, now, id, 0, Untouched);
      KidInPlace(was, now, id, 1, Untouched);
      KidInPlace(was, now, id, 2, Untouched);
      DoneIsMarked(was, now, was[id].kids[0], now[id].kids[0], c, Untouched);
      DoneIsMarked(was, now, was[id].kids[1], now[id].kids[1], t, Untouched);
      DoneIsMarked(was, now, was[id].kids[2], now[id].kids[2], f, Untouched);
  }

  lemma {:induction false} MarkedReference(was: Table, now: Table, id: Id, id': Id, e: Expr, role: Role)
    requires AllDone(was, now) && Represents(was, id, e) && e.Var? && InPlaceOf(was, now, id', id, role)
    ensures Represents(now, id', Marked(e, role))
  {
    LeafStays(was, now, id);
    if role != Untouched {
      assert Represents(now, now[id'].kids[0], HookCall(HookOf(role)));
      assert Represents(now, now[id'].kids[1], e);
    }
  }

  lemma {:induction false} PairIsMarked(was: Table, now: Table, id: Id, l: Expr, roleL: Role, r: Expr, roleR: Role)
    requires AllDone(was, now) && id in was && |was[id].kids| == 2 && Supported(l) && Supported(r)
    requires Represents(was, was[id].kids[0], l) && Represents(was, was[id].kids[1], r)
    requires l.Var? ==> roleL == RoleAt(was, id, 0)
    requires r.Var? ==> roleR == RoleAt(was, id, 1)
    ensures id in now && now[id].kind == was[id].kind && |now[id].kids| == 2
    ensures Represents(now, now[id].kids[0], Marked(l, roleL)) && Represents(now, now[id].kids[1], Marked(r, roleR))
    decreases 1 + Size(l) + Size(r), 0
  {
    VarIsVar(was, was[id].kids[0], l);
    VarIsVar(was, was[id].kids[1], r);
    KidInPlace(was, now, id, 0, roleL);
    KidInPlace(was, now, id, 1, roleR);
    DoneIsMarked(was, now, was[id].kids[0], now[id].kids[0], l, roleL);
    DoneIsMarked(was, now, was[id].kids[1], now[id].kids[1], r, roleR);
  }

  lemma {:induction false} ListIsMarked(was: Table, now: Table, n: Id, i: nat, args: List)
    requires AllDone(was, now) && n in was && was[n].kind == ListNode && i <= |was[n].kids|
    requires RepresentsList(was, was[n].kids[i..], args) && SupportedList(args)
    ensures n in now && now[n].kind == ListNode && |now[n].kids| == |was[n].kids|
    ensures RepresentsList(now, now[n].kids[i..], MarkedList(args))
    decreases SizeList(args), 1
  {
    assert Done(was, now, n);
    match args
    case Nil =>
    case Cons(h, t) =>
      VarIsVar(was, was[n].kids[i], h);
      KidInPlace(was, now, n, i, Read);
      DoneIsMarked(was, now, was[n].kids[i], now[n].kids[i], h, Read);
      assert was[n].kids[i..][1..] == was[n].kids[i + 1..] && now[n].kids[i..][1..] == now[n].kids[i + 1..];
      ListIsMarked(was, now, n, i + 1, t);
  }

  // ------------------------------------------------------------------ the order of the traversal

  /** The nodes in the order in which the traversal evaluates them: children from left to right, then the node. */
  ghost function Postorder(nodes: Table, id: Id, e: Expr): seq<Id>
    requires Represents(nodes, id, e)
    decreases e
  {
    var kids := nodes[id].kids;
    match e
    case Lit(_) => [id]
    case Var(_) => [id]
    case HookCall(_) => [id]
    case Unary(_, k) => Postorder(nodes, kids[0], k) + [id]
    case Binary(_, l, r) => Postorder(nodes, kids[0], l) + Postorder(nodes, kids[1], r) + [id]
    case Comma(l, r) => Postorder(nodes, kids[0], l) + Postorder(nodes, kids[1], r) + [id]
    case Assign(l, r) => Postorder(nodes, kids[0], l) + Postorder(nodes, kids[1], r) + [id]
    case Dot(l, r) => Postorder(nodes, kids[0], l) + Postorder(nodes, kids[1], r) + [id]
    case Call(_, args) => PostorderList(nodes, nodes[kids[0]].kids, args) + [kids[0]] + [id]
    case Conditional(c, t, f) =>
      Postorder(nodes, kids[0], c) + Postorder(nodes, kids[1], t) + Postorder(nodes, kids[2], f) + [id]
  }

  ghost function PostorderList(nodes: Table, ids: seq<Id>, args: List): seq<Id>
    requires RepresentsList(nodes, ids, args)
    decreases args
  {
    match args
    case Nil => []
    case Cons(h, t) => Postorder(nodes, ids[0], h) + PostorderList(nodes, ids[1..], t)
  }

  ghost predicate AllManageable(nodes: Table, order: seq<Id>) {
    forall i :: 0 <= i < |order| ==> order[i] in nodes && Manageable(nodes, order[i])
  }

  lemma {:induction false} ManageableParts(nodes: Table, a: seq<Id>, b: seq<Id>)
    ensures AllManageable(nodes, a + b) <==> AllManageable(nodes, a) && AllManageable(nodes, b)
  {
    if AllManageable(nodes, a + b) {
      assert forall i :: 0 <= i < |a| ==> (a + b)[i] == a[i];
      assert forall i :: 0 <= i < |b| ==> (a + b)[|a| + i] == b[i];
    }
  }

  /** All nodes can be dealt with exactly if the expression is supported. */
  lemma {:induction false} ManageableIff(nodes: Table, id: Id, e: Expr)
    requires Represents(nodes, id, e)
    ensures AllManageable(nodes, Postorder(nodes, id, e)) <==> Supported(e)
    decreases Size(e), 1
  {
    var kids := nodes[id].kids;
    match e
    case Lit(_) =>
    case Var(_) =>
    case HookCall(_) =>
    case Unary(_, k) =>
      ManageableIff(nodes, kids[0], k);
      ManageableParts(nodes, Postorder(nodes, kids[0], k), [id]);
    case Binary(_, l, r) => ManageablePair(nodes, id, l, r);
    case Comma(l, r) => ManageablePair(nodes, id, l, r);
    case Assign(l, r) => ManageablePair(nodes, id, l, r);
    case Dot(l, r) => ManageablePair(nodes, id, l, r);
    case Call(_, args) =>
      var list := nodes[kids[0]].kids;
      ManageableListIff(nodes, list, args);
      ManageableParts(nodes, PostorderList(nodes, list, args), [kids[0]]);
      ManageableParts(nodes, PostorderList(nodes, list, args) + [kids[0]], [id]);
    case Conditional(c, t, f) => ManageableConditional(nodes, id, c, t, f);
  }

  lemma {:induction false} ManageablePair(nodes: Table, id: Id, l: Expr, r: Expr)
    requires id in nodes && |nodes[id].kids| == 2 && IsBinary(nodes[id].kind)
    requires Represents(nodes, nodes[id].kids[0], l) && Represents(nodes, nodes[id].kids[1], r)
    ensures AllManageable(nodes, Postorder(nodes, nodes[id].kids[0], l) + Postorder(nodes, nodes[id].kids[1], r) + [id])
       <==> Supported(l) && Supported(r)
    decreases 1 + Size(l) + Size(r), 0
  {
    var kids := nodes[id].kids;
    var a, b := Postorder(nodes, kids[0], l), Postorder(nodes, kids[1], r);
    ManageableIff(nodes, kids[0], l);
    ManageableIff(nodes, kids[1], r);
    ManageableParts(nodes, a, b);
    ManageableParts(nodes, a + b, [id]);
  }

  lemma {:induction false} ManageableConditional(nodes: Table, id: Id, c: Expr, t: Expr, f: Expr)
    requires Represents(nodes, id, Conditional(c, t, f))
    ensures AllManageable(nodes, Postorder(nodes, id, Conditional(c, t, f))) <==> Supported(Conditional(c, t, f))
    decreases 1 + Size(c) + Size(t) + Size(f), 0
  {
    var kids := nodes[id].kids;
    var x, y, z := Postorder(nodes, kids[0], c), Postorder(nodes, kids[1], t), Postorder(nodes, kids[2], f);
    ManageableIff(nodes, kids[0], c);
    ManageableIff(nodes, kids[1], t);
    ManageableIff(nodes, kids[2], f);
    VarIsVar(nodes, kids[0], c);
    VarIsVar(nodes, kids[1], t);
    VarIsVar(nodes, kids[2], f);
    assert Manageable(nodes, id) <==> !c.Var? && !t.Var? && !f.Var?;
    assert [id][0] == id;
    ManageableParts(nodes, x, y);
    ManageableParts(nodes, x + y, z);
    ManageableParts(nodes, x + y + z, [id]);
  }

  lemma {:induction false} ManageableListIff(nodes: Table, ids: seq<Id>, args: List)
    requires RepresentsList(nodes, ids, args)
    ensures AllManageable(nodes, PostorderList(nodes, ids, args)) <==> SupportedList(args)
    decreases SizeList(args), 0
  {
    match args
    case Nil =>
    case Cons(h, t) =>
      ManageableIff(nodes, ids[0], h);
      ManageableListIff(nodes, ids[1..], t);
      ManageableParts(nodes, Postorder(nodes, ids[0], h), PostorderList(nodes, ids[1..], t));
  }

  // ------------------------------------------------------------------ the operations

  ghost predicate NodeFits(nodes: Table, parents: map<Id, Id>, n: Id)
    requires n in nodes
  {
    var kids := nodes[n].kids;
    && ArityFits(nodes[n])
    && (forall j :: 0 <= j < |kids| ==> kids[j] in nodes && kids[j] in parents && parents[kids[j]] == n)
    && (forall i, j :: 0 <= i < j < |kids| ==> kids[i] != kids[j])
  }

  /** Where a reference is among the operands of its parent. */
  ghost predicate SitsAt(nodes: Table, parents: map<Id, Id>, v: Id, n: Id, j: nat) {
    && v in parents && parents[v] == n && n in nodes && ArityFits(nodes[n]) && j < |nodes[n].kids| && nodes[n].kids[j] == v
    && forall l :: 0 <= l < |nodes[n].kids| && l != j ==> nodes[n].kids[l] != v
  }

  /** Operand `j` of node `n` replaced by the new comma expression. */
  ghost predicate OperandHooked(nodes: Table, parents: map<Id, Id>, next: Id, v: Id, n: Id, j: nat, h: Hook,
                                nodes': Table, parents': map<Id, Id>, next': Id)
    requires SitsAt(nodes, parents, v, n, j)
  {
    && next' == next + 2
    && nodes' == nodes[n := Node(nodes[n].kind, nodes[n].kids[j := next + 1])][next := Node(HookNode(h), [])][next + 1 := Node(CommaNode, [next, v])]
    && parents' == parents[v := next + 1][next := next + 1][next + 1 := n]
  }

  class Ast {
    var nodes: Table
    var parents: map<Id, Id>
    var next: Id

    constructor (nodes: Table, parents: map<Id, Id>, next: Id)
      ensures this.nodes == nodes && this.parents == parents && this.next == next
    {
      this.nodes, this.parents, this.next := nodes, parents, next;
    }

    ghost predicate Bounded()
      reads this
    {
      (forall n :: n in nodes ==> n < next) && (forall k :: k in parents ==> k < next)
    }

    /** Replaces one operand, given by its position. */
    method SetOperand(v: Id, j: nat, h: Hook)
      requires Bounded() && v in parents && SitsAt(nodes, parents, v, parents[v], j)
      modifies this
      ensures Bounded()
      ensures OperandHooked(old(nodes), old(parents), old(next), v, old(parents)[v], j, h, nodes, parents, next)
    {
      var n := parents[v];
      nodes := nodes[n := Node(nodes[n].kind, nodes[n].kids[j := next + 1])];
      nodes := nodes[next := Node(HookNode(h), [])][next + 1 := Node(CommaNode, [next, v])];
      parents := parents[v := next + 1][next := next + 1][next + 1 := n];
      next := next + 2;
    }

    /** `instrumentWrite`: the left side of an assignment. */
    method InstrumentWrite(v: Id)
      requires Bounded() && v in parents && SitsAt(nodes, parents, v, parents[v], 0) && nodes[parents[v]].kind == AssignNode
      modifies this
      ensures Bounded()
      ensures OperandHooked(old(nodes), old(parents), old(next), v, old(parents)[v], 0, BeforeWrite, nodes, parents, next)
    {
      SetOperand(v, 0, BeforeWrite);
    }

    /** `instrumentRead`: it looks at the parent to find the place of the reference; `false` is the failed assertion. */
    method InstrumentRead(v: Id, ghost j: nat) returns (ok: bool)
      requires Bounded() && v in parents && SitsAt(nodes, parents, v, parents[v], j)
      modifies this
      ensures Bounded() && ok == Handled(old(nodes)[old(parents)[v]].kind)
      ensures ok ==> OperandHooked(old(nodes), old(parents), old(next), v, old(parents)[v], j, BeforeRead, nodes, parents, next)
      ensures !ok ==> nodes == old(nodes) && parents == old(parents) && next == old(next)
    {
      var n := parents[v];
      var k := 0;
      if IsBinary(nodes[n].kind) {
        if nodes[n].kids[0] != v {
          k := 1;
        }
      } else if nodes[n].kind == ListNode {
        while nodes[n].kids[k] != v
          invariant k <= j
          decreases j - k
        {
          k := k + 1;
        }
      } else if !nodes[n].kind.UnaryNode? {
        return false;
      }
      SetOperand(v, k, BeforeRead);
      return true;
    }

    /** `evaluateSynthesizedAttribute`: deals with the children of a node that are references. */
    method Evaluate(n: Id) returns (ok: bool)
      requires Bounded() && n in nodes && NodeFits(nodes, parents, n)
      modifies this
      ensures Bounded() && ok == Manageable(old(nodes), n)
      ensures Outside(old(nodes), old(parents), nodes, parents, n)
      ensures ok ==> Done(old(nodes), nodes, n)
    {
      var kids := nodes[n].kids;
      ok := true;
      if nodes[n].kind == AssignNode && IsVar(nodes, kids[0]) {
        InstrumentWrite(kids[0]);
        WriteDone(old(nodes), old(parents), old(next), nodes, parents, next, n);
      } else {
        StartPartly(nodes, parents, n);
        for j := 0 to |kids|
          invariant Bounded() && Partly(old(nodes), old(parents), nodes, parents, n, j)
          invariant forall l :: 0 <= l < j && IsVar(old(nodes), kids[l]) ==> Handled(old(nodes)[n].kind)
        {
          PartlyFits(old(nodes), old(parents), nodes, parents, n, j);
          if IsVar(nodes, kids[j]) {
            ghost var mid, midParents, midNext := nodes, parents, next;
            ok := InstrumentRead(kids[j], j);
            if !ok {
              return;
            }
            PartlyHooked(old(nodes), old(parents), mid, midParents, midNext, nodes, parents, next, n, j);
          }
        }
      }
    }

    /** Comes to the nodes in the given order, and stops at the first failed assertion. */
    method EvaluateAll(order: seq<Id>) returns (ok: bool)
      requires Bounded() && (forall n {:trigger NodeFits(nodes, parents, n)} :: n in nodes ==> NodeFits(nodes, parents, n))
      requires Distinct(order) && Elements(order) == nodes.Keys
      modifies this
      ensures ok <==> AllManageable(old(nodes), order)
      ensures ok ==> AllDone(old(nodes), nodes)
    {
      ghost var done: set<Id> := {};
      StartHalfway(nodes, parents);
      for i := 0 to |order|
        invariant Bounded() && Halfway(old(nodes), nodes, parents, done) && done == Elements(order[..i])
        invariant AllManageable(old(nodes), order[..i])
      {
        var n := order[i];
        NextElement(order, i);
        assert NodeFits(old(nodes), old(parents), n);
        StillFits(old(nodes), old(parents), nodes, parents, done, n);
        ghost var mid, midParents := nodes, parents;
        ok := Evaluate(n);
        if !ok {
          return;
        }
        EvaluateNext(old(nodes), old(parents), mid, midParents, done, nodes, parents, n);
        done := done + {n};
        ManageableParts(old(nodes), order[..i], [n]);
      }
      assert order[..|order|] == order;
      ok := true;
      HalfwayDone(old(nodes), nodes, parents, done);
    }

    /** The whole traversal of an expression, in postorder. */
    method Traverse(order: seq<Id>, ghost root: Id, ghost e: Expr) returns (ok: bool)
      requires Bounded() && (forall n {:trigger NodeFits(nodes, parents, n)} :: n in nodes ==> NodeFits(nodes, parents, n))
      requires Represents(nodes, root, e) && order == Postorder(nodes, root, e)
      requires Distinct(order) && Elements(order) == nodes.Keys
      modifies this
      ensures ok <==> Visit(e).Some?
      ensures ok ==> Represents(nodes, root, Visit(e).value)
    {
      ManageableIff(nodes, root, e);
      VisitIsMarked(e);
      ok := EvaluateAll(order);
      if ok {
        DoneIsMarked(old(nodes), nodes, root, root, e, Untouched);
      }
    }
  }

  lemma {:induction false} StartHalfway(nodes: Table, parents: map<Id, Id>)
    requires forall n {:trigger NodeFits(nodes, parents, n)} :: n in nodes ==> NodeFits(nodes, parents, n)
    ensures Halfway(nodes, nodes, parents, {})
  {
    var none: set<Id> := {};
    forall n | n in nodes ensures StateOf(nodes, nodes, parents, none, n) {
      assert NodeFits(nodes, parents, n);
    }
  }

  lemma {:induction false} HalfwayDone(was: Table, now: Table, parents: map<Id, Id>, done: set<Id>)
    requires Halfway(was, now, parents, done) && done == was.Keys
    ensures AllDone(was, now)
  {
    forall n | n in was ensures Done(was, now, n) {
      assert StateOf(was, now, parents, done, n);
    }
  }

  /** The node is as it was, and so are the parents of its children. */
  ghost predicate Pristine(was: Table, now: Table, parents: map<Id, Id>, n: Id)
    requires n in was
  {
    && n in now && now[n] == was[n]
    && forall j :: 0 <= j < |was[n].kids| ==> was[n].kids[j] in parents && parents[was[n].kids[j]] == n
  }

  ghost predicate StateOf(was: Table, now: Table, parents: map<Id, Id>, done: set<Id>, n: Id)
    requires n in was
  {
    if n in done then Done(was, now, n) else Pristine(was, now, parents, n)
  }

  /** In the middle of the traversal. */
  ghost predicate Halfway(was: Table, now: Table, parents: map<Id, Id>, done: set<Id>) {
    forall n {:trigger StateOf(was, now, parents, done, n)} :: n in was ==> StateOf(was, now, parents, done, n)
  }

  lemma {:induction false} DoneStays(was: Table, wasParents: map<Id, Id>, mid: Table, midParents: map<Id, Id>, now: Table, parents: map<Id, Id>,
                                     m: Id, n: Id)
    requires m in was && n in was && m != n && Outside(mid, midParents, now, parents, m)
    requires forall x :: x in was ==> x in mid
    ensures Done(was, mid, n) ==> Done(was, now, n)
    ensures Pristine(was, mid, midParents, n) ==> Pristine(was, now, parents, n)
  {
    if Done(was, mid, n) {
      forall j | 0 <= j < |was[n].kids| ensures KidDone(was, now, n, j) {
        assert KidDone(was, mid, n, j);
      }
    }
  }

  lemma {:induction false} KindsStay(was: Table, now: Table, parents: map<Id, Id>, done: set<Id>, n: Id)
    requires Halfway(was, now, parents, done) && n in was
    ensures n in now && now[n].kind == was[n].kind
  {
    assert StateOf(was, now, parents, done, n);
  }

  lemma {:induction false} DoneFrom(was: Table, mid: Table, midParents: map<Id, Id>, done: set<Id>, now: Table, m: Id)
    requires Halfway(was, mid, midParents, done) && m in was && m !in done && m in mid && Done(mid, now, m)
    requires forall j :: 0 <= j < |was[m].kids| ==> was[m].kids[j] in was
    ensures mid[m] == was[m] && Done(was, now, m)
  {
    assert StateOf(was, mid, midParents, done, m);
    forall x | x in was ensures x in mid && mid[x].kind == was[x].kind {
      KindsStay(was, mid, midParents, done, x);
    }
    forall j | 0 <= j < |was[m].kids| ensures KidDone(was, now, m, j) {
      assert KidDone(mid, now, m, j);
      assert RoleAt(mid, m, j) == RoleAt(was, m, j);
    }
  }

  lemma {:induction false} EvaluateNext(was: Table, wasParents: map<Id, Id>, mid: Table, midParents: map<Id, Id>, done: set<Id>,
                                        now: Table, parents: map<Id, Id>, m: Id)
    requires Halfway(was, mid, midParents, done) && m in was && m !in done && NodeFits(was, wasParents, m)
    requires Outside(mid, midParents, now, parents, m) && m in mid && Done(mid, now, m)
    ensures Halfway(was, now, parents, done + {m})
  {
    DoneFrom(was, mid, midParents, done, now, m);
    forall x | x in was ensures x in mid {
      KindsStay(was, mid, midParents, done, x);
    }
    var done' := done + {m};
    forall n | n in was ensures StateOf(was, now, parents, done', n) {
      if n != m {
        assert StateOf(was, mid, midParents, done, n);
        DoneStays(was, wasParents, mid, midParents, now, parents, m, n);
      }
    }
  }

  /** A node whose turn has not come fits, and can be managed exactly if it could at first. */
  lemma {:induction false} StillFits(was: Table, wasParents: map<Id, Id>, now: Table, parents: map<Id, Id>, done: set<Id>, m: Id)
    requires Halfway(was, now, parents, done) && m in was && m !in done && NodeFits(was, wasParents, m)
    ensures m in now && NodeFits(now, parents, m) && (Manageable(now, m) <==> Manageable(was, m))
  {
    assert StateOf(was, now, parents, done, m);
    forall j | 0 <= j < |was[m].kids|
      ensures was[m].kids[j] in now && (IsVar(now, was[m].kids[j]) <==> IsVar(was, was[m].kids[j]))
    {
      KindsStay(was, now, parents, done, was[m].kids[j]);
    }
  }

  lemma {:induction false} NextElement(ids: seq<Id>, i: nat)
    requires Distinct(ids) && i < |ids|
    ensures ids[i] in Elements(ids) && ids[i] !in Elements(ids[..i])
    ensures Elements(ids[..i + 1]) == Elements(ids[..i]) + {ids[i]} && ids[..i + 1] == ids[..i] + [ids[i]]
  {
    assert ids[..i + 1] == ids[..i] + [ids[i]];
  }

  /** Nothing but node `n` and the parents of its children has changed. */
  ghost predicate Outside(was: Table, wasParents: map<Id, Id>, now: Table, parents: map<Id, Id>, n: Id) {
    && (forall m :: m in was && m != n ==> m in now && now[m] == was[m])
    && (forall k :: k in wasParents && wasParents[k] != n ==> k in parents && parents[k] == wasParents[k])
  }

  /** The children before `j` have been dealt with. */
  ghost predicate Partly(was: Table, wasParents: map<Id, Id>, now: Table, parents: map<Id, Id>, n: Id, j: nat)
    requires n in was
  {
    && Outside(was, wasParents, now, parents, n)
    && n in now && now[n].kind == was[n].kind && |now[n].kids| == |was[n].kids|
    && (forall l {:trigger KidDone(was, now, n, l)} :: 0 <= l < j && l < |was[n].kids| ==> KidDone(was, now, n, l))
    && (forall l :: j <= l < |was[n].kids| ==> now[n].kids[l] == was[n].kids[l])
    && (forall l :: j <= l < |was[n].kids| ==> was[n].kids[l] in parents && parents[was[n].kids[l]] == n)
  }

  lemma StartPartly(nodes: Table, parents: map<Id, Id>, n: Id)
    requires n in nodes && NodeFits(nodes, parents, n)
    ensures Partly(nodes, parents, nodes, parents, n, 0)
  {
  }

  lemma {:induction false} PartlyFits(was: Table, wasParents: map<Id, Id>, now: Table, parents: map<Id, Id>, n: Id, j: nat)
    requires n in was && NodeFits(was, wasParents, n) && j < |was[n].kids| && Partly(was, wasParents, now, parents, n, j)
    ensures SitsAt(now, parents, was[n].kids[j], n, j)
    ensures IsVar(now, was[n].kids[j]) <==> IsVar(was, was[n].kids[j])
    ensures !IsVar(was, was[n].kids[j]) ==> Partly(was, wasParents, now, parents, n, j + 1)
  {
    var kids := was[n].kids;
    forall l | 0 <= l < |kids| && l != j ensures now[n].kids[l] != kids[j] {
      if l < j {
        assert KidDone(was, now, n, l);
      }
    }
    if kids[j] == n {
      assert now[n].kind == was[n].kind;
    }
  }

  lemma {:induction false} PartlyHooked(was: Table, wasParents: map<Id, Id>, mid: Table, midParents: map<Id, Id>, next: Id,
                                        now: Table, parents: map<Id, Id>, next': Id, n: Id, j: nat)
    requires n in was && NodeFits(was, wasParents, n) && j < |was[n].kids| && Partly(was, wasParents, mid, midParents, n, j)
    requires RoleAt(was, n, j) == Read && SitsAt(mid, midParents, was[n].kids[j], n, j)
    requires (forall m :: m in mid ==> m < next) && (forall k :: k in midParents ==> k < next)
    requires OperandHooked(mid, midParents, next, was[n].kids[j], n, j, BeforeRead, now, parents, next')
    ensures Partly(was, wasParents, now, parents, n, j + 1)
  {
    assert forall m :: m in was ==> m in mid && m < next;
    forall l | 0 <= l <= j ensures KidDone(was, now, n, l) {
      if l < j {
        assert KidDone(was, mid, n, l);
      }
    }
  }

  lemma {:induction false} WriteDone(was: Table, wasParents: map<Id, Id>, next: Id, now: Table, parents: map<Id, Id>, next': Id, n: Id)
    requires n in was && NodeFits(was, wasParents, n) && was[n].kind == AssignNode && IsVar(was, was[n].kids[0])
    requires (forall m :: m in was ==> m < next) && (forall k :: k in wasParents ==> k < next)
    requires SitsAt(was, wasParents, was[n].kids[0], n, 0)
    requires OperandHooked(was, wasParents, next, was[n].kids[0], n, 0, BeforeWrite, now, parents, next')
    ensures Outside(was, wasParents, now, parents, n) && Done(was, now, n)
  {
    assert KidDone(was, now, n, 0) && KidDone(was, now, n, 1);
  }
}
