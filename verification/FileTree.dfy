/**
 A directory tree and its renames, addressed by path.
 */
module FileTree {

  import opened Optional

  datatype Tree = File(content: int) | Dir(entries: seq<Entry>)
  datatype Entry = Entry(name: string, tree: Tree)

  type Path = seq<string>

  function IndexOf(es: seq<Entry>, name: string): (i: int)
    ensures -1 <= i < |es|
    ensures i >= 0 ==> es[i].name == name
    ensures i < 0 ==> forall j :: 0 <= j < |es| ==> es[j].name != name
  {
    if es == [] then -1
    else if es[|es| - 1].name == name then |es| - 1
    else IndexOf(es[..|es| - 1], name)
  }

  /** No two entries of the directory have the same name. */
  ghost predicate DistinctNames(es: seq<Entry>) {
    forall i, j :: 0 <= i < j < |es| ==> es[i].name != es[j].name
  }

  ghost predicate WellFormed(t: Tree) {
    match t
    case File(_) => true
    case Dir(es) => DistinctNames(es) && forall i :: 0 <= i < |es| ==> WellFormed(es[i].tree)
  }

  /** What is at the end of a path. */
  function At(t: Tree, path: Path): Option<Tree>
    decreases |path|
  {
    if path == [] then Some(t)
    else if t.File? then None
    else
      var i := IndexOf(t.entries, path[0]);
      if i < 0 then None else At(t.entries[i].tree, path[1..])
  }

  /** The tree with the part at the end of a path replaced. */
  function Put(t: Tree, path: Path, x: Tree): Tree
    requires At(t, path).Some?
    decreases |path|
  {
    if path == [] then x
    else
      var i := IndexOf(t.entries, path[0]);
      Dir(t.entries[i := Entry(path[0], Put(t.entries[i].tree, path[1..], x))])
  }

  function Names(es: seq<Entry>): (ns: seq<string>)
    ensures |ns| == |es|
  {
    seq(|es|, i requires 0 <= i < |es| => es[i].name)
  }

  /** Whether a name is present depends on the names alone. */
  lemma {:induction false} SameNamesSameIndex(es: seq<Entry>, fs: seq<Entry>, name: string)
    requires |es| == |fs| && forall i :: 0 <= i < |es| ==> es[i].name == fs[i].name
    ensures IndexOf(es, name) == IndexOf(fs, name)
  {
    if es != [] {
      SameNamesSameIndex(es[..|es| - 1], fs[..|fs| - 1], name);
    }
  }

  lemma IndexOfDistinct(es: seq<Entry>, i: nat)
    requires i < |es| && DistinctNames(es)
    ensures IndexOf(es, es[i].name) == i
  {
  }

  lemma {:induction false} AtPut(t: Tree, path: Path, x: Tree)
    requires At(t, path).Some?
    ensures At(Put(t, path, x), path) == Some(x)
    decreases |path|
  {
    if path != [] {
      var i := IndexOf(t.entries, path[0]);
      AtPut(t.entries[i].tree, path[1..], x);
      SameNamesSameIndex(t.entries, Put(t, path, x).entries, path[0]);
    }
  }

  /** Putting back what was there undoes a replacement. */
  lemma {:induction false} PutBack(t: Tree, path: Path, x: Tree)
    requires At(t, path).Some?
    ensures At(Put(t, path, x), path).Some?
    ensures Put(Put(t, path, x), path, At(t, path).value) == t
    decreases |path|
  {
    AtPut(t, path, x);
    if path != [] {
      var i := IndexOf(t.entries, path[0]);
      PutBack(t.entries[i].tree, path[1..], x);
      SameNamesSameIndex(t.entries, Put(t, path, x).entries, path[0]);
      var es := t.entries;
      assert es[i := Entry(path[0], es[i].tree)] == es;
    }
  }

  /** A replacement below one path shows at another only if that path goes through it or ends above it. */
  lemma {:induction false} AtElsewhere(t: Tree, path: Path, x: Tree, q: Path)
    requires At(t, path).Some? && At(t, path).value.Dir? && x.Dir? && !(path <= q)
    ensures At(t, q).None? <==> At(Put(t, path, x), q).None?
    ensures At(t, q).Some? ==>
              var (a, b) := (At(t, q).value, At(Put(t, path, x), q).value);
              a == b || (a.Dir? && b.Dir? && Names(a.entries) == Names(b.entries) && |a.entries| == |b.entries| &&
                         forall j :: 0 <= j < |a.entries| ==> a.entries[j].tree.File? == b.entries[j].tree.File?)
    decreases |path|
  {
    var i := IndexOf(t.entries, path[0]);
    var t' := Put(t, path, x);
    if q == [] {
      assert t'.entries[i].name == t.entries[i].name;
      assert t.entries[i].tree.Dir? && t'.entries[i].tree.Dir?;
    } else if t.Dir? {
      SameNamesSameIndex(t.entries, t'.entries, q[0]);
      if q[0] == path[0] {
        AtElsewhere(t.entries[i].tree, path[1..], x, q[1..]);
      }
    }
  }

  // ------------------------------------------------------------------ renaming

  /** A rename inside the directory at the end of a path. */
  datatype Rename = Rename(path: Path, source: string, target: string)

  /** The source is there and the target is not. */
  predicate CanRename(t: Tree, r: Rename) {
    && At(t, r.path).Some? && At(t, r.path).value.Dir?
    && IndexOf(At(t, r.path).value.entries, r.source) >= 0
    && IndexOf(At(t, r.path).value.entries, r.target) < 0
  }

  function RenameIn(es: seq<Entry>, source: string, target: string): seq<Entry>
    requires IndexOf(es, source) >= 0
  {
    es[IndexOf(es, source) := Entry(target, es[IndexOf(es, source)].tree)]
  }

  function Apply(t: Tree, r: Rename): Tree
    requires CanRename(t, r)
  {
    Put(t, r.path, Dir(RenameIn(At(t, r.path).value.entries, r.source, r.target)))
  }

  /** Run of renames, oldest first; `None` if one of them is impossible. */
  function ApplyAll(t: Tree, rs: seq<Rename>): Option<Tree> {
    if rs == [] then Some(t)
    else
      match ApplyAll(t, rs[..|rs| - 1])
      case None => None
      case Some(u) => if CanRename(u, rs[|rs| - 1]) then Some(Apply(u, rs[|rs| - 1])) else None
  }

  function Undo(r: Rename): Rename {
    Rename(r.path, r.target, r.source)
  }

  /** The log read backwards, each entry reversed. */
  function Reversed(rs: seq<Rename>): seq<Rename> {
    if rs == [] then [] else [Undo(rs[|rs| - 1])] + Reversed(rs[..|rs| - 1])
  }

  lemma {:induction false} WellFormedAt(t: Tree, path: Path)
    requires WellFormed(t) && At(t, path).Some?
    ensures WellFormed(At(t, path).value)
    decreases |path|
  {
    if path != [] {
      WellFormedAt(t.entries[IndexOf(t.entries, path[0])].tree, path[1..]);
    }
  }

  lemma {:induction false} WellFormedPut(t: Tree, path: Path, x: Tree)
    requires WellFormed(t) && At(t, path).Some? && WellFormed(x)
    ensures WellFormed(Put(t, path, x))
    decreases |path|
  {
    if path != [] {
      var i := IndexOf(t.entries, path[0]);
      WellFormedPut(t.entries[i].tree, path[1..], x);
      var es := Put(t, path, x).entries;
      assert forall j :: 0 <= j < |es| ==> es[j].name == t.entries[j].name;
    }
  }

  /** A rename keeps names distinct, and the reverse rename takes it back. */
  lemma {:induction false} RenameIsReversible(t: Tree, r: Rename)
    requires WellFormed(t) && CanRename(t, r)
    ensures WellFormed(Apply(t, r)) && CanRename(Apply(t, r), Undo(r)) && Apply(Apply(t, r), Undo(r)) == t
  {
    var es := At(t, r.path).value.entries;
    var fs := RenameIn(es, r.source, r.target);
    WellFormedAt(t, r.path);
    RenameInReversible(es, r.source, r.target);
    WellFormedPut(t, r.path, Dir(fs));
    AtPut(t, r.path, Dir(fs));
    PutBack(t, r.path, Dir(fs));
    PutTwice(t, r.path, Dir(fs), Dir(es));
  }

  lemma {:induction false} PutTwice(t: Tree, path: Path, x: Tree, y: Tree)
    requires At(t, path).Some? && At(Put(t, path, x), path).Some?
    ensures Put(Put(t, path, x), path, y) == Put(t, path, y)
    decreases |path|
  {
    if path != [] {
      var i := IndexOf(t.entries, path[0]);
      AtPut(t.entries[i].tree, path[1..], x);
      PutTwice(t.entries[i].tree, path[1..], x, y);
      SameNamesSameIndex(t.entries, Put(t, path, x).entries, path[0]);
    }
  }

  lemma {:induction false} RenameInReversible(es: seq<Entry>, source: string, target: string)
    requires DistinctNames(es) && (forall i :: 0 <= i < |es| ==> WellFormed(es[i].tree))
    requires IndexOf(es, source) >= 0 && IndexOf(es, target) < 0
    ensures WellFormed(Dir(RenameIn(es, source, target)))
    ensures IndexOf(RenameIn(es, source, target), target) == IndexOf(es, source) && IndexOf(RenameIn(es, source, target), source) < 0
    ensures RenameIn(RenameIn(es, source, target), target, source) == es
  {
    var i, fs := IndexOf(es, source), RenameIn(es, source, target);
    IndexOfDistinct(fs, i);
    assert es[i := Entry(source, es[i].tree)] == es;
  }

  /** Replaying the log backwards restores the original tree. */
  lemma {:induction false} ReplayRestores(t: Tree, rs: seq<Rename>)
    requires WellFormed(t) && ApplyAll(t, rs).Some?
    ensures WellFormed(ApplyAll(t, rs).value)
    ensures ApplyAll(ApplyAll(t, rs).value, Reversed(rs)) == Some(t)
  {
    if rs != [] {
      var init, r := rs[..|rs| - 1], rs[|rs| - 1];
      ReplayRestores(t, init);
      var u := ApplyAll(t, init).value;
      RenameIsReversible(u, r);
      ApplyFirst(Apply(u, r), Undo(r), Reversed(init));
    }
  }

  /** Renames can be split off at the front as well. */
  lemma {:induction false} ApplyFirst(t: Tree, r: Rename, rs: seq<Rename>)
    requires CanRename(t, r)
    ensures ApplyAll(t, [r] + rs) == ApplyAll(Apply(t, r), rs)
  {
    if rs == [] {
      assert ([r] + rs)[..0] == [];
    } else {
      var init := rs[..|rs| - 1];
      ApplyFirst(t, r, init);
      var all := [r] + rs;
      assert all[..|all| - 1] == [r] + init && all[|all| - 1] == rs[|rs| - 1];
    }
  }

  /** The tree without its names. */
  datatype Shape = Leaf(content: int) | Branch(parts: seq<Shape>)

  function ShapeOf(t: Tree): Shape {
    match t
    case File(c) => Leaf(c)
    case Dir(es) => Branch(seq(|es|, i requires 0 <= i < |es| => ShapeOf(es[i].tree)))
  }

  /** Files of the same shape have the same content, directories the same number of entries, and these have the same shapes in turn. */
  lemma {:induction false} SameShapeMeans(t: Tree, u: Tree)
    ensures ShapeOf(t) == ShapeOf(u) <==>
              match t
              case File(c) => u == File(c)
              case Dir(es) =>
                u.Dir? && |u.entries| == |es| && forall i :: 0 <= i < |es| ==> ShapeOf(es[i].tree) == ShapeOf(u.entries[i].tree)
  {
    if t.Dir? && u.Dir? {
      var a, b := ShapeOf(t).parts, ShapeOf(u).parts;
      if a == b {
        forall i | 0 <= i < |t.entries| ensures ShapeOf(t.entries[i].tree) == ShapeOf(u.entries[i].tree) {
          assert a[i] == b[i];
        }
      }
    }
  }

  lemma {:induction false} PutKeepsShape(t: Tree, path: Path, x: Tree)
    requires At(t, path).Some? && ShapeOf(x) == ShapeOf(At(t, path).value)
    ensures ShapeOf(Put(t, path, x)) == ShapeOf(t)
    decreases |path|
  {
    if path != [] {
      var i := IndexOf(t.entries, path[0]);
      PutKeepsShape(t.entries[i].tree, path[1..], x);
      var a, b := ShapeOf(t).parts, ShapeOf(Put(t, path, x)).parts;
      assert a == b;
    }
  }

  lemma {:induction false} RenameKeepsShape(t: Tree, r: Rename)
    requires CanRename(t, r)
    ensures ShapeOf(Apply(t, r)) == ShapeOf(t)
  {
    var es := At(t, r.path).value.entries;
    var fs := RenameIn(es, r.source, r.target);
    assert ShapeOf(Dir(fs)).parts == ShapeOf(Dir(es)).parts;
    PutKeepsShape(t, r.path, Dir(fs));
  }

  /** Renames keep the shape of the tree and the contents of all files. */
  lemma {:induction false} RenamesKeepShape(t: Tree, rs: seq<Rename>)
    requires ApplyAll(t, rs).Some?
    ensures ShapeOf(ApplyAll(t, rs).value) == ShapeOf(t)
  {
    if rs != [] {
      RenamesKeepShape(t, rs[..|rs| - 1]);
      RenameKeepsShape(ApplyAll(t, rs[..|rs| - 1]).value, rs[|rs| - 1]);
    }
  }
}
