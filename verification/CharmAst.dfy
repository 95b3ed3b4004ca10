/**
 The rewriting as it is done, in place: a table of nodes with their operands and parents, in which the
 references to global variables are replaced one after the other.
 */
module CharmAst {
  import opened Sequences
  import opened Charm

  type Id = nat

  datatype Node = Node(kind: Kind, kids: seq<Id>)

  type Table = map<Id, Node>

  /** The node and everything below it form the given tree. */
  ghost predicate Represents(nodes: Table, id: Id, t: Tree)
    decreases t
  {
    && id in nodes && nodes[id].kind == t.kind && |nodes[id].kids| == |t.kids|
    && forall i :: 0 <= i < |t.kids| ==> Represents(nodes, nodes[id].kids[i], t.kids[i])
  }

  predicate ArityFits(node: Node) {
    match node.kind
    case Lit(_) => node.kids == []
    case Ref(_) => node.kids == []
    case Unary(_) => |node.kids| == 1
    case Binary(_) => |node.kids| == 2 && node.kids[0] != node.kids[1]
    case _ => true
  }

  ghost predicate NodeFits(nodes: Table, parents: map<Id, Id>, p: Id)
    requires p in nodes
  {
    && ArityFits(nodes[p])
    && forall i :: 0 <= i < |nodes[p].kids| ==>
         nodes[p].kids[i] in nodes && nodes[p].kids[i] in parents && parents[nodes[p].kids[i]] == p
  }

  ghost predicate ParentFits(nodes: Table, parents: map<Id, Id>, k: Id)
    requires k in parents
  {
    parents[k] in nodes && k in nodes[parents[k]].kids
  }

  /** Every node is the operand of its parent and of no other node. */
  ghost predicate Linked(nodes: Table, parents: map<Id, Id>) {
    && (forall p {:trigger NodeFits(nodes, parents, p)} :: p in nodes ==> NodeFits(nodes, parents, p))
    && (forall k {:trigger ParentFits(nodes, parents, k)} :: k in parents ==> ParentFits(nodes, parents, k))
  }

  function Redirect(id: Id, dots: map<Id, Id>): Id {
    if id in dots then dots[id] else id
  }

  function RedirectAll(kids: seq<Id>, dots: map<Id, Id>): (r: seq<Id>)
    ensures |r| == |kids|
  {
    seq(|kids|, i requires 0 <= i < |kids| => Redirect(kids[i], dots))
  }

  /** The new node for a reference: the structure, a dot, and the old node. */
  ghost predicate IsDot(nodes: Table, dot: Id, v: Id, ampi: Symbol) {
    && dot in nodes && nodes[dot].kind == Binary(Dot) && |nodes[dot].kids| == 2 && nodes[dot].kids[1] == v
    && nodes[dot].kids[0] in nodes && nodes[nodes[dot].kids[0]] == Node(Ref(ampi), [])
  }

  ghost predicate NodeReplaced(was: Table, now: Table, dots: map<Id, Id>, n: Id)
    requires n in was
  {
    n in now && now[n] == Node(was[n].kind, RedirectAll(was[n].kids, dots))
  }

  ghost predicate DotMade(now: Table, dots: map<Id, Id>, ampi: Symbol, v: Id)
    requires v in dots
  {
    IsDot(now, dots[v], v, ampi)
  }

  /** The table after the references in `dots` have been replaced by the nodes given there. */
  ghost predicate Replaced(was: Table, now: Table, dots: map<Id, Id>, ampi: Symbol) {
    && (forall n {:trigger NodeReplaced(was, now, dots, n)} :: n in was ==> NodeReplaced(was, now, dots, n))
    && (forall v {:trigger DotMade(now, dots, ampi, v)} :: v in dots ==> DotMade(now, dots, ampi, v))
  }

  /** The operands of a node that has a reference replaced; a binary operator is asked for its left side first. */
  function WithOperand(node: Node, v: Id, dot: Id): Node
    requires ArityFits(node) && Operator(node.kind)
  {
    if node.kind.Unary? then Node(node.kind, [dot])
    else if node.kids[0] == v then Node(node.kind, [dot, node.kids[1]])
    else Node(node.kind, [node.kids[0], dot])
  }

  predicate Replaceable(nodes: Table, parents: map<Id, Id>, v: Id) {
    v in parents && parents[v] in nodes && Operator(nodes[parents[v]].kind)
  }

  /** One reference replaced: `base` is the new reference to the structure, `dot` the new selection. */
  ghost predicate Step(nodes: Table, parents: map<Id, Id>, v: Id, base: Id, dot: Id, ampi: Symbol, nodes': Table, parents': map<Id, Id>)
    requires Replaceable(nodes, parents, v) && ArityFits(nodes[parents[v]])
  {
    var p := parents[v];
    && nodes' == nodes[p := WithOperand(nodes[p], v, dot)][base := Node(Ref(ampi), [])][dot := Node(Binary(Dot), [base, v])]
    && parents' == parents[v := dot][base := dot][dot := p]
  }

  /** The table stays a forest with the right parents. */
  lemma {:induction false} StepLinked(nodes: Table, parents: map<Id, Id>, v: Id, base: Id, dot: Id, ampi: Symbol, nodes': Table, parents': map<Id, Id>)
    requires Linked(nodes, parents) && Replaceable(nodes, parents, v) && ArityFits(nodes[parents[v]]) && Step(nodes, parents, v, base, dot, ampi, nodes', parents')
    requires v in nodes && base !in nodes && dot !in nodes && base != dot
    ensures Linked(nodes', parents')
  {
    var p := parents[v];
    assert ParentFits(nodes, parents, v);
    forall q | q in nodes' ensures NodeFits(nodes', parents', q) {
      if q in nodes {
        assert NodeFits(nodes, parents, q);
      }
    }
    forall k | k in parents' ensures ParentFits(nodes', parents', k) {
      if k in parents && k != v {
        assert ParentFits(nodes, parents, k);
        assert k in nodes'[parents'[k]].kids;
      }
    }
  }

  /** What is known between two replacements. */
  ghost predicate Underway(was: Table, parents: map<Id, Id>, now: Table, parents': map<Id, Id>, dots: map<Id, Id>, ampi: Symbol) {
    && Linked(now, parents') && Replaced(was, now, dots, ampi)
    && (forall v :: v in dots ==> v in was && dots[v] !in was)
    && (forall v :: v in was && v !in dots ==> (v in parents <==> v in parents'))
    && (forall v :: v in was && v !in dots && v in parents ==> parents'[v] == parents[v])
  }

  /** Replacing the operand is redirecting the reference. */
  lemma {:induction false} RedirectOne(node: Node, dots: map<Id, Id>, v: Id, dot: Id)
    requires ArityFits(node) && Operator(node.kind) && v in node.kids && v !in dots
    requires ArityFits(Node(node.kind, RedirectAll(node.kids, dots)))
    requires forall u :: u in dots ==> dots[u] != v
    ensures Node(node.kind, RedirectAll(node.kids, dots[v := dot])) == WithOperand(Node(node.kind, RedirectAll(node.kids, dots)), v, dot)
  {
    var kids := node.kids;
    var a, b := RedirectAll(kids, dots), RedirectAll(kids, dots[v := dot]);
    assert forall i :: 0 <= i < |kids| ==> b[i] == if kids[i] == v then dot else a[i];
    assert forall i :: 0 <= i < |kids| ==> (a[i] == v <==> kids[i] == v);
    if node.kind.Unary? {
      assert b == [dot];
    } else if kids[0] == v {
      assert b == [dot, a[1]];
    } else {
      assert b == [a[0], dot];
    }
  }

  lemma {:induction false} RedirectNone(kids: seq<Id>, dots: map<Id, Id>, v: Id, dot: Id)
    requires v !in kids
    ensures RedirectAll(kids, dots[v := dot]) == RedirectAll(kids, dots)
  {
    assert forall i :: 0 <= i < |kids| ==> kids[i] in kids;
  }

  /** A step redirects the one operand of the one parent. */
  lemma {:induction false} StepNode(was: Table, parents: map<Id, Id>, now: Table, dots: map<Id, Id>, v: Id, dot: Id, n: Id)
    requires Linked(was, parents) && v in parents && v !in dots && n in was && Replaceable(was, parents, v)
    requires n in now && now[n] == Node(was[n].kind, RedirectAll(was[n].kids, dots)) && ArityFits(now[n])
    requires forall u :: u in dots ==> dots[u] != v
    ensures var node := Node(was[n].kind, RedirectAll(was[n].kids, dots[v := dot]));
            if n == parents[v] then node == WithOperand(now[n], v, dot) else node == now[n]
  {
    assert ParentFits(was, parents, v);
    assert NodeFits(was, parents, n);
    if n == parents[v] {
      RedirectOne(was[n], dots, v, dot);
    } else {
      RedirectNone(was[n].kids, dots, v, dot);
    }
  }

  lemma {:induction false} StepReplaced(was: Table, parents: map<Id, Id>, now: Table, parents': map<Id, Id>, dots: map<Id, Id>,
                                        ampi: Symbol, v: Id, base: Id, dot: Id, now': Table, parents'': map<Id, Id>)
    requires Linked(was, parents) && Underway(was, parents, now, parents', dots, ampi)
    requires v in was && v !in dots && Replaceable(now, parents', v) && ArityFits(now[parents'[v]])
    requires base !in now && dot !in now && base != dot
    requires Step(now, parents', v, base, dot, ampi, now', parents'')
    ensures Replaced(was, now', dots[v := dot], ampi)
  {
    var dots', p := dots[v := dot], parents'[v];
    assert ParentFits(was, parents, v) && NodeReplaced(was, now, dots, p);
    forall n | n in was ensures NodeReplaced(was, now', dots', n) {
      assert NodeReplaced(was, now, dots, n) && NodeFits(now, parents', n);
      StepNode(was, parents, now, dots, v, dot, n);
    }
    forall u | u in dots' ensures DotMade(now', dots', ampi, u) {
      if u != v {
        assert DotMade(now, dots, ampi, u);
        DotStays(now, now', dots[u], u, ampi, p);
      }
    }
  }

  lemma DotStays(now: Table, now': Table, dot: Id, u: Id, ampi: Symbol, p: Id)
    requires IsDot(now, dot, u, ampi) && p in now && Operator(now[p].kind) && dot != p
    requires forall n :: n in now && n != p ==> n in now' && now'[n] == now[n]
    ensures IsDot(now', dot, u, ampi)
  {
  }

  lemma {:induction false} StepUnderway(was: Table, parents: map<Id, Id>, now: Table, parents': map<Id, Id>, dots: map<Id, Id>,
                                        ampi: Symbol, v: Id, base: Id, dot: Id, now': Table, parents'': map<Id, Id>)
    requires Linked(was, parents) && Underway(was, parents, now, parents', dots, ampi)
    requires v in was && v !in dots && Replaceable(now, parents', v) && ArityFits(now[parents'[v]])
    requires base !in now && dot !in now && base != dot
    requires Step(now, parents', v, base, dot, ampi, now', parents'')
    ensures Underway(was, parents, now', parents'', dots[v := dot], ampi)
  {
    assert NodeReplaced(was, now, dots, v);
    StepLinked(now, parents', v, base, dot, ampi, now', parents'');
    StepReplaced(was, parents, now, parents', dots, ampi, v, base, dot, now', parents'');
    forall n | n in was ensures n != dot && n != base {
      assert NodeReplaced(was, now, dots, n);
    }
  }

  // ------------------------------------------------------------------ the table and the trees

  /** When all references to globals have been replaced, the table holds the rewritten tree. */
  lemma {:induction false} ReplacedIsFixed(was: Table, now: Table, dots: map<Id, Id>, ampi: Symbol, id: Id, t: Tree)
    requires Replaced(was, now, dots, ampi) && Represents(was, id, t)
    requires forall n :: n in was ==> (n in dots <==> GlobalRef(was[n].kind))
    requires forall n :: n in was && was[n].kind.Ref? ==> was[n].kids == []
    ensures Represents(now, Redirect(id, dots), Fixed(t, ampi))
    decreases t
  {
    assert NodeReplaced(was, now, dots, id);
    if id in dots {
      assert DotMade(now, dots, ampi, id);
      var d := ThroughStruct(t, ampi);
      assert Represents(now, now[dots[id]].kids[0], d.kids[0]);
      assert Represents(now, id, t);
    } else {
      var t' := Fixed(t, ampi);
      forall i | 0 <= i < |t.kids| ensures Represents(now, now[id].kids[i], t'.kids[i]) {
        ReplacedIsFixed(was, now, dots, ampi, was[id].kids[i], t.kids[i]);
      }
    }
  }

  /** The nodes of the tree at a node. */
  ghost predicate Below(nodes: Table, id: Id, t: Tree, n: Id)
    requires Represents(nodes, id, t)
    decreases t
  {
    n == id || exists i :: 0 <= i < |t.kids| && Below(nodes, nodes[id].kids[i], t.kids[i], n)
  }

  lemma {:induction false} ReplaceableIsSupported(nodes: Table, parents: map<Id, Id>, id: Id, t: Tree)
    requires Linked(nodes, parents) && Represents(nodes, id, t)
    requires forall n :: n in nodes && GlobalRef(nodes[n].kind) ==> Replaceable(nodes, parents, n)
    ensures Supported(t, Replaceable(nodes, parents, id))
    decreases t
  {
    assert NodeFits(nodes, parents, id);
    forall i | 0 <= i < |t.kids| ensures Supported(t.kids[i], Operator(t.kind)) {
      ReplaceableIsSupported(nodes, parents, nodes[id].kids[i], t.kids[i]);
    }
  }

  lemma {:induction false} OtherIsUnsupported(nodes: Table, parents: map<Id, Id>, id: Id, t: Tree, n: Id)
    requires Linked(nodes, parents) && Represents(nodes, id, t) && Below(nodes, id, t, n)
    requires n in nodes && GlobalRef(nodes[n].kind) && !Replaceable(nodes, parents, n)
    ensures !Supported(t, Replaceable(nodes, parents, id))
    decreases t
  {
    assert NodeFits(nodes, parents, id);
    if n != id {
      var i :| 0 <= i < |t.kids| && Below(nodes, nodes[id].kids[i], t.kids[i], n);
      OtherIsUnsupported(nodes, parents, nodes[id].kids[i], t.kids[i], n);
    }
  }

  // ------------------------------------------------------------------ the operations

  class Ast {
    var nodes: Table
    var parents: map<Id, Id>
    var next: Id

    constructor (nodes: Table, parents: map<Id, Id>, next: Id)
      ensures this.nodes == nodes && this.parents == parents && this.next == next
    {
      this.nodes, this.parents, this.next := nodes, parents, next;
    }

    ghost predicate Valid()
      reads this
    {
      Linked(nodes, parents) && forall n :: n in nodes ==> n < next
    }

    /** Out of all references those whose variable is declared in the global scope, in the same order. */
    method SelectGlobals(references: seq<Id>) returns (globals: seq<Id>)
      requires Distinct(references) && forall i :: 0 <= i < |references| ==> references[i] in nodes
      ensures Distinct(globals)
      ensures forall v :: v in globals <==> v in references && v in nodes && GlobalRef(nodes[v].kind)
    {
      globals := [];
      for i := 0 to |references|
        invariant Distinct(globals)
        invariant forall v :: v in globals <==> v in references[..i] && v in nodes && GlobalRef(nodes[v].kind)
      {
        assert references[i] !in references[..i];
        if GlobalRef(nodes[references[i]].kind) {
          globals := globals + [references[i]];
        }
      }
      assert references[..|references|] == references;
    }

    /** Replaces one reference by a selection from the structure, if its parent is an operator. */
    method FixupReference(v: Id, ampi: Symbol) returns (ok: bool, ghost base: Id, ghost dot: Id)
      requires Valid() && v in nodes
      modifies this
      ensures Valid() && ok == Replaceable(old(nodes), old(parents), v)
      ensures !ok ==> nodes == old(nodes) && parents == old(parents)
      ensures ok ==> base !in old(nodes) && dot !in old(nodes) && base != dot && ArityFits(old(nodes)[old(parents)[v]])
      ensures ok ==> Step(old(nodes), old(parents), v, base, dot, ampi, nodes, parents)
    {
      base, dot := next, next + 1;
      if v !in parents {
        return false, base, dot;
      }
      var p := parents[v];
      assert ParentFits(nodes, parents, v) && NodeFits(nodes, parents, p);
      if !Operator(nodes[p].kind) {
        return false, base, dot;
      }
      var lhs, selection := next, next + 1;
      nodes := nodes[p := WithOperand(nodes[p], v, selection)][lhs := Node(Ref(ampi), [])][selection := Node(Binary(Dot), [lhs, v])];
      parents := parents[v := selection][lhs := selection][selection := p];
      next := next + 2;
      StepLinked(old(nodes), old(parents), v, base, dot, ampi, nodes, parents);
      return true, base, dot;
    }

    /** Replaces all the given references, or stops at the first that cannot be replaced. */
    method FixupReferences(references: seq<Id>, ampi: Symbol) returns (ok: bool, ghost dots: map<Id, Id>)
      requires Valid() && Distinct(references) && forall i :: 0 <= i < |references| ==> references[i] in nodes
      modifies this
      ensures ok <==> forall i :: 0 <= i < |references| ==> Replaceable(old(nodes), old(parents), references[i])
      ensures ok ==> Valid() && (forall v :: v in dots <==> v in references) && Replaced(old(nodes), nodes, dots, ampi)
    {
      dots := map[];
      StartUnderway(nodes, parents, ampi);
      for i := 0 to |references|
        invariant Valid() && Underway(old(nodes), old(parents), nodes, parents, dots, ampi)
        invariant forall v :: v in dots <==> v in references[..i]
        invariant forall j :: 0 <= j < i ==> Replaceable(old(nodes), old(parents), references[j])
      {
        ghost var before, beforeParents := nodes, parents;
        var v := references[i];
        assert v !in references[..i];
        StillReplaceable(old(nodes), old(parents), nodes, parents, dots, ampi, v);
        ghost var base, dot;
        ok, base, dot := FixupReference(v, ampi);
        if !ok {
          return;
        }
        StepUnderway(old(nodes), old(parents), before, beforeParents, dots, ampi, v, base, dot, nodes, parents);
        dots := dots[v := dot];
      }
      assert references[..|references|] == references;
      ok := true;
    }

    /** The rewriting of a file, given all its variable references. */
    method UseStruct(references: seq<Id>, ampi: Symbol, ghost root: Id, ghost t: Tree) returns (ok: bool)
      requires Valid() && Represents(nodes, root, t) && root !in parents
      requires forall n :: n in nodes ==> Below(nodes, root, t, n)
      requires Distinct(references) && forall n :: n in references <==> n in nodes && nodes[n].kind.Ref?
      modifies this
      ensures ok <==> Supported(t, false)
      ensures ok ==> Valid() && Represents(nodes, root, Fixed(t, ampi)) && WellFormed(t)
    {
      var globals := SelectGlobals(references);
      ghost var dots;
      ok, dots := FixupReferences(globals, ampi);
      SupportedIff(old(nodes), old(parents), root, t, globals);
      if ok {
        LeavesOnly(old(nodes), old(parents));
        RepresentedIsWellFormed(old(nodes), old(parents), root, t);
        ReplacedIsFixed(old(nodes), nodes, dots, ampi, root, t);
      }
    }
  }

  lemma {:induction false} StartUnderway(nodes: Table, parents: map<Id, Id>, ampi: Symbol)
    requires Linked(nodes, parents)
    ensures Underway(nodes, parents, nodes, parents, map[], ampi)
  {
    var none: map<Id, Id> := map[];
    forall n | n in nodes ensures NodeReplaced(nodes, nodes, none, n) {
      assert RedirectAll(nodes[n].kids, none) == nodes[n].kids;
    }
  }

  /** A reference that has not been replaced has its old parent, and that is still of the same kind. */
  lemma {:induction false} StillReplaceable(was: Table, parents: map<Id, Id>, now: Table, parents': map<Id, Id>, dots: map<Id, Id>, ampi: Symbol, v: Id)
    requires Linked(was, parents) && Underway(was, parents, now, parents', dots, ampi) && v in was && v !in dots
    ensures v in now && (Replaceable(was, parents, v) <==> Replaceable(now, parents', v))
  {
    assert NodeReplaced(was, now, dots, v);
    if v in parents {
      assert ParentFits(was, parents, v);
      assert NodeReplaced(was, now, dots, parents[v]);
    }
  }

  lemma {:induction false} LeavesOnly(nodes: Table, parents: map<Id, Id>)
    requires Linked(nodes, parents)
    ensures forall n :: n in nodes && nodes[n].kind.Ref? ==> nodes[n].kids == []
  {
    forall n | n in nodes && nodes[n].kind.Ref? ensures nodes[n].kids == [] {
      assert NodeFits(nodes, parents, n);
    }
  }

  /** In a linked table references are leaves of the trees, too. */
  lemma {:induction false} RepresentedIsWellFormed(nodes: Table, parents: map<Id, Id>, id: Id, t: Tree)
    requires Linked(nodes, parents) && Represents(nodes, id, t)
    ensures WellFormed(t)
    decreases t
  {
    assert NodeFits(nodes, parents, id);
    forall i | 0 <= i < |t.kids| ensures WellFormed(t.kids[i]) {
      RepresentedIsWellFormed(nodes, parents, nodes[id].kids[i], t.kids[i]);
    }
  }

  lemma {:induction false} SupportedIff(nodes: Table, parents: map<Id, Id>, root: Id, t: Tree, globals: seq<Id>)
    requires Linked(nodes, parents) && Represents(nodes, root, t) && root !in parents
    requires forall n :: n in nodes ==> Below(nodes, root, t, n)
    requires forall v :: v in globals <==> v in nodes && GlobalRef(nodes[v].kind)
    ensures (forall i :: 0 <= i < |globals| ==> Replaceable(nodes, parents, globals[i])) <==> Supported(t, false)
  {
    if forall i :: 0 <= i < |globals| ==> Replaceable(nodes, parents, globals[i]) {
      ReplaceableIsSupported(nodes, parents, root, t);
    } else {
      var i :| 0 <= i < |globals| && !Replaceable(nodes, parents, globals[i]);
      assert globals[i] in globals;
      OtherIsUnsupported(nodes, parents, root, t, globals[i]);
    }
  }
}
