/**
 The transformation of one file: the declarations of the global variables move into the structure, and
 the references follow.
 */
module CharmFile {
  import opened Sequences
  import opened Charm
  import A = CharmAst
  import G = CharmGlobals

  /** Some declaration of the list declares the variable. */
  ghost predicate Declares(ds: seq<G.Declaration>, s: Symbol) {
    exists d :: 0 <= d < |ds| && ds[d].Declared? && s in ds[d].names
  }

  /** Every global variable that the tree refers to is declared in the file. */
  ghost predicate WellScoped(t: Tree, ds: seq<G.Declaration>) {
    && (GlobalRef(t.kind) ==> Declares(ds, t.kind.sym))
    && forall i :: 0 <= i < |t.kids| ==> WellScoped(t.kids[i], ds)
  }

  /** Every selection from the structure names a variable that one of its members declares. */
  ghost predicate SelectsMembers(t: Tree, ampi: Symbol, members: seq<G.Declaration>) {
    && (IsThroughStruct(t, ampi) ==> t.kids[1].kind.Ref? && Declares(members, t.kids[1].kind.sym))
    && forall i :: 0 <= i < |t.kids| ==> SelectsMembers(t.kids[i], ampi, members)
  }

  /** A declaration with variables becomes a member. */
  lemma {:induction false} MovableIsMember(ds: seq<G.Declaration>, n: nat, d: nat) returns (m: nat)
    requires d < n <= |ds| && G.Movable(ds[d])
    ensures m < |G.Members(ds, n)| && G.Members(ds, n)[m] == ds[d]
  {
    if d == n - 1 {
      m := |G.Members(ds, n - 1)|;
    } else {
      m := MovableIsMember(ds, n - 1, d);
    }
  }

  lemma {:induction false} DeclaredIsMember(ds: seq<G.Declaration>, s: Symbol)
    requires Declares(ds, s)
    ensures Declares(G.Members(ds, |ds|), s)
  {
    var d :| 0 <= d < |ds| && ds[d].Declared? && s in ds[d].names;
    var m := MovableIsMember(ds, |ds|, d);
  }

  /** The rewritten tree selects nothing that has not moved into the structure. */
  lemma {:induction false} FixedSelectsMembers(t: Tree, ampi: Symbol, ds: seq<G.Declaration>)
    requires WellFormed(t) && WellScoped(t, ds) && !Mentions(t, ampi)
    ensures SelectsMembers(Fixed(t, ampi), ampi, G.Members(ds, |ds|))
  {
    var t', ms := Fixed(t, ampi), G.Members(ds, |ds|);
    if GlobalRef(t.kind) {
      DeclaredIsMember(ds, t.kind.sym);
      assert SelectsMembers(t'.kids[0], ampi, ms) && SelectsMembers(t'.kids[1], ampi, ms);
    } else {
      forall i | 0 <= i < |t.kids| ensures SelectsMembers(t'.kids[i], ampi, ms) {
        FixedSelectsMembers(t.kids[i], ampi, ds);
      }
      if |t.kids| == 2 {
        assert !Mentions(t.kids[0], ampi) && t.kids[0].kind != Ref(ampi);
        assert t'.kids[0] == Fixed(t.kids[0], ampi);
        assert t'.kids[0].kind != Ref(ampi);
      }
    }
  }

  /** On corresponding stores and libraries the two trees do the same, as values and as places. */
  ghost predicate SameMeaning(t: Tree, t': Tree, ampi: Symbol) {
    forall lib, lib', fuel, lvalue, m, m' {:trigger Eval(lib, false, fuel, t, lvalue, m), Eval(lib', true, fuel, t', lvalue, m')} ::
      SameStore(m, m', ampi) && SameLibrary(lib, lib', ampi)
      ==> SameOutcome(Eval(lib, false, fuel, t, lvalue, m), Eval(lib', true, fuel, t', lvalue, m'), ampi)
  }

  lemma {:induction false} FixedMeansTheSame(t: Tree, ampi: Symbol)
    requires WellFormed(t) && ampi.global
    ensures SameMeaning(t, Fixed(t, ampi), ampi)
  {
    forall lib, lib', fuel, lvalue, m, m' | SameStore(m, m', ampi) && SameLibrary(lib, lib', ampi)
      ensures SameOutcome(Eval(lib, false, fuel, t, lvalue, m), Eval(lib', true, fuel, Fixed(t, ampi), lvalue, m'), ampi)
    {
      FixedPreserves(lib, lib', fuel, t, lvalue, m, m', ampi);
    }
  }

  /** `transformGlobalVariablesToUseStruct` on a file whose references are all declared in it. */
  method Transform(scope: G.GlobalScope, ast: A.Ast, references: seq<A.Id>, ampi: Symbol, ghost root: A.Id, ghost t: Tree)
    returns (ok: bool)
    requires G.Original(scope.declarations) && scope.members == []
    requires ast.Valid() && A.Represents(ast.nodes, root, t) && root !in ast.parents
    requires forall n :: n in ast.nodes ==> A.Below(ast.nodes, root, t, n)
    requires Distinct(references) && forall n :: n in references <==> n in ast.nodes && ast.nodes[n].kind.Ref?
    requires ampi.global && !Mentions(t, ampi) && WellScoped(t, scope.declarations)
    modifies scope, ast
    ensures ok <==> G.Single(old(scope.declarations), |old(scope.declarations)|) && Supported(t, false)
    ensures ok ==> scope.declarations == G.Remaining(old(scope.declarations), |old(scope.declarations)|)
    ensures ok ==> scope.members == G.Members(old(scope.declarations), |old(scope.declarations)|)
    ensures ok ==> ast.Valid() && A.Represents(ast.nodes, root, Fixed(t, ampi))
    ensures ok ==> SelectsMembers(Fixed(t, ampi), ampi, scope.members) && SameMeaning(t, Fixed(t, ampi), ampi)
  {
    ghost var ds := scope.declarations;
    var globals := scope.BuildListOfGlobals();
    ok := scope.PutIntoStruct(globals);
    if ok {
      ok := ast.UseStruct(references, ampi, root, t);
      if ok {
        FixedSelectsMembers(t, ampi, ds);
        FixedMeansTheSame(t, ampi);
      }
    }
  }
}
