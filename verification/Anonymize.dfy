/**
 The renaming of all files and directories of a tree to numbered names, bottom up.
 */
module Anonymize {
  import opened Optional
  import opened Sequences
  import opened FileTree

  // ------------------------------------------------------------------ numbered names

  function Digit(d: nat): char
    requires d < 10
  {
    '0' + d as char
  }

  predicate IsDigit(c: char) {
    '0' <= c <= '9'
  }

  function Decimal(n: nat): string {
    if n < 10 then [Digit(n)] else Decimal(n / 10) + [Digit(n % 10)]
  }

  function Zeros(n: nat): string {
    seq(n, _ => '0')
  }

  /** `%06d`: at least six digits. */
  function Padded(n: nat): string {
    var d := Decimal(n);
    if |d| < 6 then Zeros(6 - |d|) + d else d
  }

  /** The number a string of digits stands for. */
  function Value(s: string): int {
    if s == [] then 0 else 10 * Value(s[..|s| - 1]) + (s[|s| - 1] as int - '0' as int)
  }

  predicate AllDigits(s: string) {
    forall i :: 0 <= i < |s| ==> IsDigit(s[i])
  }

  lemma {:induction false} DecimalValue(n: nat)
    ensures AllDigits(Decimal(n)) && Value(Decimal(n)) == n
  {
    if n >= 10 {
      DecimalValue(n / 10);
      var d := Decimal(n / 10);
      assert (d + [Digit(n % 10)])[..|d|] == d;
    } else {
      assert [Digit(n)][..0] == [];
    }
  }

  lemma {:induction false} LeadingZeros(k: nat, s: string)
    ensures Value(Zeros(k) + s) == Value(s)
  {
    var z := Zeros(k);
    if s == [] {
      assert z + s == z;
      ZerosValue(k);
    } else {
      LeadingZeros(k, s[..|s| - 1]);
      assert (z + s)[..|z + s| - 1] == z + s[..|s| - 1];
    }
  }

  lemma {:induction false} ZerosValue(k: nat)
    ensures Value(Zeros(k)) == 0
  {
    if k > 0 {
      ZerosValue(k - 1);
      assert Zeros(k)[..k - 1] == Zeros(k - 1);
    }
  }

  lemma {:induction false} PaddedValue(n: nat)
    ensures AllDigits(Padded(n)) && Value(Padded(n)) == n
  {
    DecimalValue(n);
    var d := Decimal(n);
    if |d| < 6 {
      LeadingZeros(6 - |d|, d);
    }
  }

  /** An extension is empty or starts with a dot. */
  predicate IsExtension(ext: string) {
    ext == [] || ext[0] == '.'
  }

  /** The extension as `os.path.splitext` returns it in Python 2.5: from the last dot on, even if that is the first character. */
  function Extension(name: string): (ext: string)
    ensures IsExtension(ext)
  {
    if name == [] then []
    else if name[|name| - 1] == '.' then ['.']
    else
      var e := Extension(name[..|name| - 1]);
      if e == [] then [] else e + [name[|name| - 1]]
  }

  /** A name is a stem and its extension; the extension is empty if there is no dot, and otherwise starts with the last one. */
  lemma {:induction false} ExtensionIs(name: string) returns (stem: string)
    ensures name == stem + Extension(name)
    ensures Extension(name) == [] <==> '.' !in name
    ensures Extension(name) != [] ==> Extension(name)[0] == '.' && '.' !in Extension(name)[1..]
  {
    if name == [] || name[|name| - 1] == '.' {
      stem := if name == [] then [] else name[..|name| - 1];
    } else {
      var init, last := name[..|name| - 1], name[|name| - 1];
      stem := ExtensionIs(init);
      assert name == init + [last];
      if Extension(init) == [] {
        stem := name;
      } else {
        assert (Extension(init) + [last])[1..] == Extension(init)[1..] + [last];
      }
    }
  }

  function PowerOfTen(k: nat): nat {
    if k == 0 then 1 else 10 * PowerOfTen(k - 1)
  }

  lemma {:induction false} DecimalLength(n: nat, k: nat)
    requires k >= 1
    ensures |Decimal(n)| <= k <==> n < PowerOfTen(k)
  {
    if k == 1 {
      assert PowerOfTen(1) == 10 * PowerOfTen(0);
    } else if n >= 10 {
      DecimalLength(n / 10, k - 1);
    } else {
      PowerGrows(k);
    }
  }

  lemma {:induction false} PowerGrows(k: nat)
    requires k >= 1
    ensures PowerOfTen(k) >= 10
  {
    if k > 1 {
      PowerGrows(k - 1);
    }
  }

  lemma {:induction false} DecimalStart(n: nat)
    requires n >= 1
    ensures Decimal(n)[0] != '0'
  {
    if n >= 10 {
      DecimalStart(n / 10);
    }
  }

  /** The digits of a number in a name: six of them below a million, and no leading zero from there on. */
  lemma {:induction false} PaddedIs(n: nat)
    ensures AllDigits(Padded(n)) && Value(Padded(n)) == n
    ensures n < 1000000 ==> |Padded(n)| == 6
    ensures n >= 1000000 ==> |Padded(n)| > 6 && Padded(n)[0] != '0'
  {
    PaddedValue(n);
    DecimalLength(n, 6);
    assert PowerOfTen(6) == 10 * PowerOfTen(5) && PowerOfTen(5) == 10 * PowerOfTen(4) && PowerOfTen(4) == 10 * PowerOfTen(3)
        && PowerOfTen(3) == 10 * PowerOfTen(2) && PowerOfTen(2) == 10 * PowerOfTen(1) && PowerOfTen(1) == 10;
    if n >= 1000000 {
      DecimalStart(n);
    }
  }

  /** `f` or `d`, the number, and for files possibly the old extension. */
  function NewName(isDir: bool, n: nat, ext: string): string {
    [if isDir then 'd' else 'f'] + Padded(n) + ext
  }

  /** The digits at the front of a string. */
  function FrontDigits(s: string): string {
    if s == [] || !IsDigit(s[0]) then [] else [s[0]] + FrontDigits(s[1..])
  }

  lemma {:induction false} FrontDigitsStop(d: string, ext: string)
    requires AllDigits(d) && IsExtension(ext)
    ensures FrontDigits(d + ext) == d
  {
    if d == [] {
      assert d + ext == ext;
    } else {
      assert (d + ext)[1..] == d[1..] + ext;
      FrontDigitsStop(d[1..], ext);
    }
  }

  /** A new name determines the kind and the number, whatever the extension. */
  lemma {:induction false} NewNameInjective(a: bool, n: nat, e: string, b: bool, m: nat, f: string)
    requires IsExtension(e) && IsExtension(f) && NewName(a, n, e) == NewName(b, m, f)
    ensures a == b && n == m
  {
    var s, t := NewName(a, n, e), NewName(b, m, f);
    assert s[0] == t[0];
    assert s[1..] == Padded(n) + e && t[1..] == Padded(m) + f;
    PaddedValue(n);
    PaddedValue(m);
    FrontDigitsStop(Padded(n), e);
    FrontDigitsStop(Padded(m), f);
  }

  // ------------------------------------------------------------------ the walk

  datatype Item = Item(name: string, isDir: bool)

  function Listing(es: seq<Entry>): (l: seq<Item>)
    ensures |l| == |es|
  {
    seq(|es|, i requires 0 <= i < |es| => Item(es[i].name, es[i].tree.Dir?))
  }

  /** One directory as `os.walk` yields it. */
  datatype Visit = Visit(path: Path, items: seq<Item>)

  /** `os.walk` with `topdown=False`: a directory comes after everything below it. */
  function Walk(t: Tree, path: Path): seq<Visit>
    requires t.Dir?
    decreases t, |t.entries| + 1
  {
    WalkBelow(t, path, |t.entries|) + [Visit(path, Listing(t.entries))]
  }

  /** The visits below the first `n` entries. */
  function WalkBelow(t: Tree, path: Path, n: nat): seq<Visit>
    requires t.Dir? && n <= |t.entries|
    decreases t, n
  {
    if n == 0 then []
    else
      var e := t.entries[n - 1];
      WalkBelow(t, path, n - 1) + (if e.tree.Dir? then Walk(e.tree, path + [e.name]) else [])
  }

  /** The listing of the directory at the end of a path. */
  function ListedAt(t: Tree, path: Path): Option<seq<Item>> {
    match At(t, path)
    case None => None
    case Some(File(_)) => None
    case Some(Dir(es)) => Some(Listing(es))
  }

  /** `v` shows a directory of `t`, where `t` itself is at `path`. */
  ghost predicate Shows(t: Tree, path: Path, v: Visit) {
    path <= v.path && ListedAt(t, v.path[|path|..]) == Some(v.items)
  }

  lemma {:induction false} WalkShows(t: Tree, path: Path, i: nat)
    requires t.Dir? && WellFormed(t) && i < |Walk(t, path)|
    ensures Shows(t, path, Walk(t, path)[i])
    decreases t, |t.entries| + 1
  {
    if i < |WalkBelow(t, path, |t.entries|)| {
      WalkBelowShows(t, path, |t.entries|, i);
    } else {
      assert path[|path|..] == [];
    }
  }

  lemma {:induction false} WalkBelowShows(t: Tree, path: Path, n: nat, i: nat)
    requires t.Dir? && WellFormed(t) && n <= |t.entries| && i < |WalkBelow(t, path, n)|
    ensures Shows(t, path, WalkBelow(t, path, n)[i])
    ensures |WalkBelow(t, path, n)[i].path| > |path|
    ensures exists k :: 0 <= k < n && WalkBelow(t, path, n)[i].path[|path|] == t.entries[k].name
    decreases t, n
  {
    var before := WalkBelow(t, path, n - 1);
    if i < |before| {
      WalkBelowShows(t, path, n - 1, i);
    } else {
      var e := t.entries[n - 1];
      var sub := path + [e.name];
      var v := Walk(e.tree, sub)[i - |before|];
      WalkShows(e.tree, sub, i - |before|);
      assert v.path[|path|] == sub[|path|] == e.name;
      IndexOfDistinct(t.entries, n - 1);
      assert v.path[|path|..][1..] == v.path[|sub|..];
    }
  }

  /** No visit is at or below the place of an earlier one. */
  lemma {:induction false} WalkPostorder(t: Tree, path: Path, i: nat, j: nat)
    requires t.Dir? && WellFormed(t) && i < j < |Walk(t, path)|
    ensures !(Walk(t, path)[i].path <= Walk(t, path)[j].path)
    decreases t, |t.entries| + 1
  {
    var n := |t.entries|;
    WalkBelowShows(t, path, n, i);
    if j < |WalkBelow(t, path, n)| {
      WalkBelowPostorder(t, path, n, i, j);
    }
  }

  /** In which order two directories of a tree are met: the one below first, otherwise by the entries where they part. */
  predicate Earlier(t: Tree, p: Path, q: Path)
    decreases |p|
  {
    if t.File? || p == [] then false
    else if q == [] then true
    else
      var i, j := IndexOf(t.entries, p[0]), IndexOf(t.entries, q[0]);
      i >= 0 && (i < j || (i == j && Earlier(t.entries[i].tree, p[1..], q[1..])))
  }

  /** The walk keeps to that order. */
  lemma {:induction false} WalkInOrder(t: Tree, path: Path, i: nat, j: nat)
    requires t.Dir? && WellFormed(t) && i < j < |Walk(t, path)|
    ensures path <= Walk(t, path)[i].path && path <= Walk(t, path)[j].path
    ensures Earlier(t, Walk(t, path)[i].path[|path|..], Walk(t, path)[j].path[|path|..])
    decreases t, |t.entries| + 1
  {
    var n := |t.entries|;
    WalkShows(t, path, i);
    WalkShows(t, path, j);
    WalkBelowShows(t, path, n, i);
    if j < |WalkBelow(t, path, n)| {
      WalkBelowInOrder(t, path, n, i, j);
    }
  }

  lemma {:induction false} WalkBelowInOrder(t: Tree, path: Path, n: nat, i: nat, j: nat)
    requires t.Dir? && WellFormed(t) && n <= |t.entries| && i < j < |WalkBelow(t, path, n)|
    ensures path <= WalkBelow(t, path, n)[i].path && path <= WalkBelow(t, path, n)[j].path
    ensures Earlier(t, WalkBelow(t, path, n)[i].path[|path|..], WalkBelow(t, path, n)[j].path[|path|..])
    decreases t, n
  {
    WalkBelowUnder(t, path, n, i);
    WalkBelowUnder(t, path, n, j);
    var before := |WalkBelow(t, path, n - 1)|;
    if j < before {
      WalkBelowInOrder(t, path, n - 1, i, j);
    } else if i < before {
      ApartInOrder(t, path, n, i, j);
    } else {
      var e := t.entries[n - 1];
      var sub := Walk(e.tree, path + [e.name]);
      WalkInOrder(e.tree, path + [e.name], i - before, j - before);
      EarlierInside(t, path, sub[i - before].path, sub[j - before].path, n - 1);
    }
  }

  /** One below the last entry, the other below an earlier one. */
  lemma {:induction false} ApartInOrder(t: Tree, path: Path, n: nat, i: nat, j: nat)
    requires t.Dir? && WellFormed(t) && 0 < n <= |t.entries| && i < |WalkBelow(t, path, n - 1)| <= j < |WalkBelow(t, path, n)|
    ensures path < WalkBelow(t, path, n)[i].path && path < WalkBelow(t, path, n)[j].path
    ensures Earlier(t, WalkBelow(t, path, n)[i].path[|path|..], WalkBelow(t, path, n)[j].path[|path|..])
  {
    var e, at := t.entries[n - 1], j - |WalkBelow(t, path, n - 1)|;
    var p, q := WalkBelow(t, path, n - 1)[i].path, Walk(e.tree, path + [e.name])[at].path;
    WalkBelowUnder(t, path, n - 1, i);
    WalkBelowShows(t, path, n - 1, i);
    WalkShows(e.tree, path + [e.name], at);
    var k :| 0 <= k < n - 1 && p[|path|] == t.entries[k].name;
    EarlierEntry(t, path, p, q, k, n - 1);
  }

  lemma {:induction false} WalkBelowUnder(t: Tree, path: Path, n: nat, i: nat)
    requires t.Dir? && WellFormed(t) && n <= |t.entries| && i < |WalkBelow(t, path, n)|
    ensures path < WalkBelow(t, path, n)[i].path
  {
    WalkBelowShows(t, path, n, i);
  }

  lemma EarlierEntry(t: Tree, path: Path, p: Path, q: Path, k: nat, l: nat)
    requires t.Dir? && WellFormed(t) && k < l < |t.entries| && path < p && path < q
    requires p[|path|] == t.entries[k].name && q[|path|] == t.entries[l].name
    ensures Earlier(t, p[|path|..], q[|path|..])
  {
    IndexOfDistinct(t.entries, k);
    IndexOfDistinct(t.entries, l);
  }

  lemma EarlierInside(t: Tree, path: Path, p: Path, q: Path, k: nat)
    requires t.Dir? && WellFormed(t) && k < |t.entries|
    requires var sub := path + [t.entries[k].name];
             sub <= p && sub <= q && Earlier(t.entries[k].tree, p[|sub|..], q[|sub|..])
    ensures path <= p && path <= q && Earlier(t, p[|path|..], q[|path|..])
  {
    IndexOfDistinct(t.entries, k);
    assert p[|path|..][1..] == p[|path| + 1..] && q[|path|..][1..] == q[|path| + 1..];
    assert p[|path|] == t.entries[k].name && q[|path|] == t.entries[k].name;
  }

  lemma {:induction false} WalkBelowPostorder(t: Tree, path: Path, n: nat, i: nat, j: nat)
    requires t.Dir? && WellFormed(t) && n <= |t.entries| && i < j < |WalkBelow(t, path, n)|
    ensures !(WalkBelow(t, path, n)[i].path <= WalkBelow(t, path, n)[j].path)
    decreases t, n
  {
    var before := WalkBelow(t, path, n - 1);
    if j < |before| {
      WalkBelowPostorder(t, path, n - 1, i, j);
    } else {
      var e := t.entries[n - 1];
      var sub := path + [e.name];
      WalkShows(e.tree, sub, j - |before|);
      var q := Walk(e.tree, sub)[j - |before|].path;
      if i < |before| {
        WalkBelowShows(t, path, n - 1, i);
        var p := before[i].path;
        var k :| 0 <= k < n - 1 && p[|path|] == t.entries[k].name;
        assert q[|path|] == sub[|path|] == e.name;
        assert p[|path|] != q[|path|];
      } else {
        WalkPostorder(e.tree, sub, i - |before|, j - |before|);
      }
    }
  }

  /** Every directory is visited. */
  lemma {:induction false} WalkCovers(t: Tree, path: Path, q: Path) returns (i: nat)
    requires t.Dir? && At(t, q).Some? && At(t, q).value.Dir?
    ensures i < |Walk(t, path)| && Walk(t, path)[i].path == path + q
    decreases |q|
  {
    var n := |t.entries|;
    if q == [] {
      i := |WalkBelow(t, path, n)|;
    } else {
      var k := IndexOf(t.entries, q[0]);
      var e := t.entries[k];
      var j := WalkCovers(e.tree, path + [e.name], q[1..]);
      assert path + [e.name] + q[1..] == path + q;
      i := WalkReaches(t, path, n, k, j);
    }
  }

  lemma {:induction false} WalkReaches(t: Tree, path: Path, n: nat, k: nat, j: nat) returns (i: nat)
    requires t.Dir? && k < n <= |t.entries| && t.entries[k].tree.Dir? && j < |Walk(t.entries[k].tree, path + [t.entries[k].name])|
    ensures i < |WalkBelow(t, path, n)| && WalkBelow(t, path, n)[i] == Walk(t.entries[k].tree, path + [t.entries[k].name])[j]
  {
    if k == n - 1 {
      i := |WalkBelow(t, path, n - 1)| + j;
    } else {
      i := WalkReaches(t, path, n - 1, k, j);
    }
  }

  // ------------------------------------------------------------------ the plan

  /** One entry to be renamed. */
  datatype Job = Job(path: Path, name: string, isDir: bool)

  /** The entries of one kind among the first `n` of a listing, in order. */
  function Chosen(path: Path, items: seq<Item>, isDir: bool, n: nat): seq<Job>
    requires n <= |items|
  {
    if n == 0 then []
    else
      Chosen(path, items, isDir, n - 1)
      + (if items[n - 1].isDir == isDir then [Job(path, items[n - 1].name, isDir)] else [])
  }

  /** The entries of one directory: first the files, then the directories. */
  function JobsOf(v: Visit): seq<Job> {
    Chosen(v.path, v.items, false, |v.items|) + Chosen(v.path, v.items, true, |v.items|)
  }

  /** The entries of the first `n` visits. */
  function Plan(visits: seq<Visit>, n: nat): seq<Job>
    requires n <= |visits|
  {
    if n == 0 then [] else Plan(visits, n - 1) + JobsOf(visits[n - 1])
  }

  /** How many of the jobs are of one kind. */
  function Count(jobs: seq<Job>, isDir: bool): (c: nat)
    ensures c <= |jobs|
  {
    if jobs == [] then 0
    else Count(jobs[..|jobs| - 1], isDir) + (if jobs[|jobs| - 1].isDir == isDir then 1 else 0)
  }

  lemma {:induction false} ChosenHas(path: Path, items: seq<Item>, isDir: bool, n: nat, k: nat) returns (p: nat)
    requires k < n <= |items| && items[k].isDir == isDir
    ensures p < |Chosen(path, items, isDir, n)| && Chosen(path, items, isDir, n)[p] == Job(path, items[k].name, isDir)
  {
    if k < n - 1 {
      p := ChosenHas(path, items, isDir, n - 1, k);
    } else {
      p := |Chosen(path, items, isDir, n - 1)|;
    }
  }

  /** In one directory the files come before the directories, and entries of one kind in the order of the listing. */
  lemma {:induction false} JobsInOrder(v: Visit, i: nat, j: nat) returns (p: nat, q: nat)
    requires i < |v.items| && j < |v.items|
    requires if v.items[i].isDir == v.items[j].isDir then i < j else v.items[j].isDir
    ensures p < q < |JobsOf(v)|
    ensures JobsOf(v)[p] == Job(v.path, v.items[i].name, v.items[i].isDir)
    ensures JobsOf(v)[q] == Job(v.path, v.items[j].name, v.items[j].isDir)
  {
    var n := |v.items|;
    var files := |Chosen(v.path, v.items, false, n)|;
    if v.items[i].isDir == v.items[j].isDir {
      p := ChosenHas(v.path, v.items, v.items[i].isDir, j, i);
      q := |Chosen(v.path, v.items, v.items[i].isDir, j)|;
      ChosenGrows(v.path, v.items, v.items[i].isDir, j + 1, n);
      if v.items[i].isDir {
        p, q := files + p, files + q;
      }
    } else {
      p := ChosenHas(v.path, v.items, false, n, i);
      q := ChosenHas(v.path, v.items, true, n, j);
      q := files + q;
    }
  }

  lemma {:induction false} PlanHas(visits: seq<Visit>, n: nat, i: nat, k: nat) returns (p: nat)
    requires i < n <= |visits| && k < |JobsOf(visits[i])|
    ensures p < |Plan(visits, n)| && Plan(visits, n)[p] == JobsOf(visits[i])[k]
  {
    if i < n - 1 {
      p := PlanHas(visits, n - 1, i, k);
    } else {
      p := |Plan(visits, n - 1)| + k;
    }
  }

  /** The plan for a tree holds every entry below its root. */
  lemma {:induction false} PlanCovers(t: Tree, q: Path, k: nat)
    requires WellFormed(t) && t.Dir? && At(t, q).Some? && At(t, q).value.Dir? && k < |At(t, q).value.entries|
    ensures var e := At(t, q).value.entries[k];
            Job(q, e.name, e.tree.Dir?) in Plan(Walk(t, []), |Walk(t, [])|)
  {
    var i := WalkCovers(t, [], q);
    assert [] + q == q;
    var v := Walk(t, [])[i];
    WalkShows(t, [], i);
    assert q[0..] == q;
    var isDir := v.items[k].isDir;
    var p := ChosenHas(q, v.items, isDir, |v.items|, k);
    var offset := if isDir then |Chosen(q, v.items, false, |v.items|)| else 0;
    assert JobsOf(v)[offset + p] == Job(q, v.items[k].name, isDir);
    var place := PlanHas(Walk(t, []), |Walk(t, [])|, i, offset + p);
  }

  ghost predicate DistinctItems(items: seq<Item>) {
    forall i, j :: 0 <= i < j < |items| ==> items[i].name != items[j].name
  }

  lemma {:induction false} ChosenFrom(path: Path, items: seq<Item>, isDir: bool, n: nat, i: nat) returns (k: nat)
    requires n <= |items| && i < |Chosen(path, items, isDir, n)|
    ensures k < n && Chosen(path, items, isDir, n)[i] == Job(path, items[k].name, isDir)
  {
    if i < |Chosen(path, items, isDir, n - 1)| {
      k := ChosenFrom(path, items, isDir, n - 1, i);
    } else {
      k := n - 1;
    }
  }

  lemma {:induction false} ChosenOnce(path: Path, items: seq<Item>, isDir: bool, n: nat)
    requires n <= |items| && DistinctItems(items)
    ensures Distinct(Chosen(path, items, isDir, n))
  {
    if n > 0 {
      ChosenOnce(path, items, isDir, n - 1);
      var init := Chosen(path, items, isDir, n - 1);
      forall i | 0 <= i < |init| ensures init[i].name != items[n - 1].name {
        var k := ChosenFrom(path, items, isDir, n - 1, i);
      }
    }
  }

  lemma {:induction false} JobsOnce(v: Visit)
    requires DistinctItems(v.items)
    ensures Distinct(JobsOf(v))
    ensures forall i :: 0 <= i < |JobsOf(v)| ==> JobsOf(v)[i].path == v.path
  {
    var fs, ds := Chosen(v.path, v.items, false, |v.items|), Chosen(v.path, v.items, true, |v.items|);
    ChosenOnce(v.path, v.items, false, |v.items|);
    ChosenOnce(v.path, v.items, true, |v.items|);
    forall i | 0 <= i < |fs| ensures fs[i].path == v.path && !fs[i].isDir {
      var k := ChosenFrom(v.path, v.items, false, |v.items|, i);
    }
    forall i | 0 <= i < |ds| ensures ds[i].path == v.path && ds[i].isDir {
      var k := ChosenFrom(v.path, v.items, true, |v.items|, i);
    }
  }

  lemma {:induction false} PlanFrom(visits: seq<Visit>, n: nat, i: nat) returns (k: nat)
    requires n <= |visits| && i < |Plan(visits, n)|
    requires forall j :: 0 <= j < n ==> DistinctItems(visits[j].items)
    ensures k < n && Plan(visits, n)[i].path == visits[k].path
  {
    var init := Plan(visits, n - 1);
    if i < |init| {
      k := PlanFrom(visits, n - 1, i);
    } else {
      JobsOnce(visits[n - 1]);
      k := n - 1;
    }
  }

  lemma {:induction false} PlanPrefixOnce(visits: seq<Visit>, n: nat)
    requires n <= |visits| && forall i, j :: 0 <= i < j < n ==> visits[i].path != visits[j].path
    requires forall j :: 0 <= j < n ==> DistinctItems(visits[j].items)
    ensures Distinct(Plan(visits, n))
  {
    if n > 0 {
      PlanPrefixOnce(visits, n - 1);
      JobsOnce(visits[n - 1]);
      var init := Plan(visits, n - 1);
      forall i | 0 <= i < |init| ensures init[i].path != visits[n - 1].path {
        var k := PlanFrom(visits, n - 1, i);
      }
    }
  }

  /** The plan for a tree holds no entry twice. */
  lemma {:induction false} PlanOnce(t: Tree)
    requires WellFormed(t) && t.Dir?
    ensures Distinct(Plan(Walk(t, []), |Walk(t, [])|))
  {
    var visits := Walk(t, []);
    forall i | 0 <= i < |visits| ensures DistinctItems(visits[i].items) {
      WalkShows(t, [], i);
      WellFormedAt(t, visits[i].path[0..]);
    }
    forall i, j | 0 <= i < j < |visits| ensures visits[i].path != visits[j].path {
      WalkPostorder(t, [], i, j);
    }
    PlanPrefixOnce(visits, |visits|);
  }

  // ------------------------------------------------------------------ where a run stands in the plan

  ghost predicate DistinctPaths(visits: seq<Visit>) {
    forall i, j :: 0 <= i < j < |visits| ==> visits[i].path != visits[j].path
  }

  lemma {:induction false} PlanExtends(visits: seq<Visit>, i: nat, n: nat)
    requires i <= n <= |visits|
    ensures Plan(visits, i) <= Plan(visits, n)
  {
    if i < n {
      PlanExtends(visits, i, n - 1);
    }
  }

  /** The visit and the place in it of one job of the plan. */
  lemma {:induction false} PlanLocate(visits: seq<Visit>, n: nat, j: nat) returns (w: nat, k: nat)
    requires n <= |visits| && j < |Plan(visits, n)|
    ensures w < n && k < |JobsOf(visits[w])| && j == |Plan(visits, w)| + k && Plan(visits, n)[j] == JobsOf(visits[w])[k]
  {
    var init := Plan(visits, n - 1);
    if j < |init| {
      w, k := PlanLocate(visits, n - 1, j);
    } else {
      w, k := n - 1, j - |init|;
    }
  }

  lemma {:induction false} PlanPlace(visits: seq<Visit>, w: nat, k: nat)
    requires w < |visits| && k < |JobsOf(visits[w])|
    ensures |Plan(visits, w)| + k < |Plan(visits, |visits|)|
    ensures Plan(visits, |visits|)[|Plan(visits, w)| + k] == JobsOf(visits[w])[k]
  {
    PlanExtends(visits, w + 1, |visits|);
    assert Plan(visits, w + 1)[|Plan(visits, w)| + k] == JobsOf(visits[w])[k];
  }

  /** The chosen entries from place `|Chosen(i)|` on are those of the items from `i` on. */
  lemma {:induction false} ChosenLocate(path: Path, items: seq<Item>, isDir: bool, n: nat, i: nat, k: nat) returns (m: nat)
    requires i <= n <= |items| && |Chosen(path, items, isDir, i)| <= k < |Chosen(path, items, isDir, n)|
    ensures i <= m < n && items[m].isDir == isDir && Chosen(path, items, isDir, n)[k] == Job(path, items[m].name, isDir)
  {
    if k < |Chosen(path, items, isDir, n - 1)| {
      m := ChosenLocate(path, items, isDir, n - 1, i, k);
    } else {
      m := n - 1;
    }
  }

  lemma {:induction false} ChosenPlace(path: Path, items: seq<Item>, isDir: bool, n: nat, i: nat, m: nat) returns (k: nat)
    requires i <= m < n <= |items| && items[m].isDir == isDir
    ensures |Chosen(path, items, isDir, i)| <= k < |Chosen(path, items, isDir, n)|
    ensures Chosen(path, items, isDir, n)[k] == Job(path, items[m].name, isDir)
    ensures m == i ==> k == |Chosen(path, items, isDir, i)|
  {
    if m < n - 1 {
      k := ChosenPlace(path, items, isDir, n - 1, i, m);
    } else {
      k := |Chosen(path, items, isDir, n - 1)|;
      ChosenGrows(path, items, isDir, i, n - 1);
    }
  }

  lemma {:induction false} ChosenGrows(path: Path, items: seq<Item>, isDir: bool, i: nat, n: nat)
    requires i <= n <= |items|
    ensures Chosen(path, items, isDir, i) <= Chosen(path, items, isDir, n)
  {
    if i < n {
      ChosenGrows(path, items, isDir, i, n - 1);
    }
  }

  /** Item `m` of a directory is still to be renamed when the loop over one kind stands at `i`. */
  ghost predicate Pending(v: Visit, isDir: bool, i: nat, m: nat) {
    m < |v.items| && if isDir then v.items[m].isDir && m >= i else v.items[m].isDir || m >= i
  }

  /** The jobs of visit `w` that are done when the loop over one kind stands at `i`. */
  function DoneOf(v: Visit, isDir: bool, i: nat): seq<Job>
    requires i <= |v.items|
  {
    (if isDir then Chosen(v.path, v.items, false, |v.items|) else []) + Chosen(v.path, v.items, isDir, i)
  }

  ghost predicate JobWaits(plan: seq<Job>, from: nat, path: Path, name: string) {
    exists j :: from <= j < |plan| && plan[j].path == path && plan[j].name == name
  }

  ghost predicate ItemWaits(v: Visit, isDir: bool, i: nat, name: string) {
    exists m {:trigger Pending(v, isDir, i, m)} :: 0 <= m && Pending(v, isDir, i, m) && v.items[m].name == name
  }

  /** The rest of the plan in the directory of a visit is what the loops have still to rename there. */
  lemma {:induction false} SameWaiting(visits: seq<Visit>, w: nat, isDir: bool, i: nat, name: string)
    requires DistinctPaths(visits) && w < |visits| && i <= |visits[w].items|
    ensures JobWaits(Plan(visits, |visits|), |Plan(visits, w)| + |DoneOf(visits[w], isDir, i)|, visits[w].path, name)
       <==> ItemWaits(visits[w], isDir, i, name)
  {
    var plan, v, from := Plan(visits, |visits|), visits[w], |Plan(visits, w)| + |DoneOf(visits[w], isDir, i)|;
    if JobWaits(plan, from, v.path, name) {
      var j :| from <= j < |plan| && plan[j].path == v.path && plan[j].name == name;
      var m := WaitingItem(visits, w, isDir, i, j);
      assert Pending(v, isDir, i, m);
    }
    if ItemWaits(v, isDir, i, name) {
      var m :| 0 <= m && Pending(v, isDir, i, m) && v.items[m].name == name;
      var j := WaitingJob(visits, w, isDir, i, m);
    }
  }

  lemma {:induction false} WaitingItem(visits: seq<Visit>, w: nat, isDir: bool, i: nat, j: nat) returns (m: nat)
    requires DistinctPaths(visits) && w < |visits| && i <= |visits[w].items|
    requires |Plan(visits, w)| + |DoneOf(visits[w], isDir, i)| <= j < |Plan(visits, |visits|)|
    requires Plan(visits, |visits|)[j].path == visits[w].path
    ensures Pending(visits[w], isDir, i, m) && visits[w].items[m].name == Plan(visits, |visits|)[j].name
  {
    var v := visits[w];
    var n := |v.items|;
    var x, k := PlanLocate(visits, |visits|, j);
    JobPath(visits[x], k);
    assert x == w;
    var files := |Chosen(v.path, v.items, false, n)|;
    if k < files {
      m := ChosenLocate(v.path, v.items, false, n, i, k);
    } else {
      m := ChosenLocate(v.path, v.items, true, n, if isDir then i else 0, k - files);
    }
  }

  lemma {:induction false} JobPath(v: Visit, k: nat)
    requires k < |JobsOf(v)|
    ensures JobsOf(v)[k].path == v.path
  {
    var n := |v.items|;
    var files := |Chosen(v.path, v.items, false, n)|;
    if k < files {
      var m := ChosenLocate(v.path, v.items, false, n, 0, k);
    } else {
      var m := ChosenLocate(v.path, v.items, true, n, 0, k - files);
    }
  }

  lemma {:induction false} WaitingJob(visits: seq<Visit>, w: nat, isDir: bool, i: nat, m: nat) returns (j: nat)
    requires w < |visits| && i <= |visits[w].items| && Pending(visits[w], isDir, i, m)
    ensures |Plan(visits, w)| + |DoneOf(visits[w], isDir, i)| <= j < |Plan(visits, |visits|)|
    ensures Plan(visits, |visits|)[j] == Job(visits[w].path, visits[w].items[m].name, visits[w].items[m].isDir)
    ensures m == i && visits[w].items[i].isDir == isDir ==> j == |Plan(visits, w)| + |DoneOf(visits[w], isDir, i)|
  {
    var v := visits[w];
    var n, kind := |v.items|, v.items[m].isDir;
    var files := |Chosen(v.path, v.items, false, n)|;
    ChosenGrows(v.path, v.items, false, i, n);
    var k := ChosenPlace(v.path, v.items, kind, n, if kind == isDir then i else 0, m);
    var place := if kind then files + k else k;
    PlanPlace(visits, w, place);
    j := |Plan(visits, w)| + place;
  }

  /** What is done before item `i` is the front of the plan. */
  lemma {:induction false} DoneIsFront(visits: seq<Visit>, w: nat, isDir: bool, i: nat)
    requires w < |visits| && i <= |visits[w].items|
    ensures Plan(visits, w) + DoneOf(visits[w], isDir, i) <= Plan(visits, |visits|)
  {
    var v := visits[w];
    var n := |v.items|;
    ChosenGrows(v.path, v.items, isDir, i, n);
    assert DoneOf(v, isDir, i) <= JobsOf(v);
    PlanExtends(visits, w + 1, |visits|);
    assert Plan(visits, w) + DoneOf(v, isDir, i) <= Plan(visits, w + 1);
  }

  // ------------------------------------------------------------------ the effect of one rename on the listings

  /** A rename leaves the listing of every directory that is not at or below its own alone. */
  lemma {:induction false} RenameElsewhere(t: Tree, r: Rename, q: Path)
    requires CanRename(t, r) && !(r.path <= q)
    ensures ListedAt(Apply(t, r), q) == ListedAt(t, q)
  {
    var x := Dir(RenameIn(At(t, r.path).value.entries, r.source, r.target));
    AtElsewhere(t, r.path, x, q);
    if At(t, q).Some? {
      var a, b := At(t, q).value, At(Apply(t, r), q).value;
      if a != b {
        forall j | 0 <= j < |a.entries| ensures Listing(a.entries)[j] == Listing(b.entries)[j] {
          assert Names(a.entries)[j] == Names(b.entries)[j];
          assert a.entries[j].tree.File? == b.entries[j].tree.File?;
        }
        assert Listing(a.entries) == Listing(b.entries);
      }
    }
  }

  /** In its own directory it changes the one name. */
  lemma {:induction false} RenameHere(t: Tree, r: Rename, k: nat)
    requires WellFormed(t) && CanRename(t, r) && ListedAt(t, r.path).Some?
    requires k < |ListedAt(t, r.path).value| && ListedAt(t, r.path).value[k].name == r.source
    ensures var items := ListedAt(t, r.path).value;
            ListedAt(Apply(t, r), r.path) == Some(items[k := Item(r.target, items[k].isDir)])
  {
    var es := At(t, r.path).value.entries;
    WellFormedAt(t, r.path);
    IndexOfDistinct(es, k);
    var fs := RenameIn(es, r.source, r.target);
    AtPut(t, r.path, Dir(fs));
    assert Listing(fs) == Listing(es)[k := Item(r.target, es[k].tree.Dir?)];
  }

  // ------------------------------------------------------------------ numbers

  const LIMIT: nat := 1000000

  /** The count of one kind and the list of the numbers given out; a sequential run needs only the count. */
  datatype Numbering = Numbering(count: nat, used: seq<nat>)

  ghost predicate ValidNumbering(ns: Numbering, random: bool) {
    && ns.count == |ns.used| < LIMIT
    && Distinct(ns.used)
    && (forall i :: 0 <= i < |ns.used| ==> 1 <= ns.used[i] <= LIMIT)
    && (!random ==> forall i :: 0 <= i < |ns.used| ==> ns.used[i] == i + 1)
  }

  /** Fewer than `n` numbers leave one of 1 to `n` free. */
  lemma {:induction false} FreeNumber(used: seq<nat>, n: nat) returns (r: nat)
    requires |used| < n
    ensures 1 <= r <= n && r !in used
  {
    if n !in used {
      r := n;
    } else {
      var i :| 0 <= i < |used| && used[i] == n;
      r := FreeNumber(used[..i] + used[i + 1..], n - 1);
      assert forall k :: 0 <= k < |used| && k != i ==> used[k] in used[..i] + used[i + 1..];
    }
  }

  /** The next number of a kind: it fails only for the millionth entry, and never repeats a number. */
  method NextNumber(ns: Numbering, random: bool) returns (r: Option<nat>, ns': Numbering)
    requires ValidNumbering(ns, random)
    ensures r.None? <==> ns.count == LIMIT - 1
    ensures r.Some? ==> 1 <= r.value <= LIMIT && r.value !in ns.used
    ensures r.Some? ==> ns' == Numbering(ns.count + 1, ns.used + [r.value]) && ValidNumbering(ns', random)
    ensures r.Some? && !random ==> r.value == ns.count + 1
  {
    ns' := ns.(count := ns.count + 1);
    if ns'.count == LIMIT {
      return None, ns';
    }
    var n: nat;
    if random {
      ghost var free := FreeNumber(ns.used, LIMIT);
      n :| 1 <= n <= LIMIT && n !in ns.used;
    } else {
      n := ns'.count;
    }
    ns' := ns'.(used := ns.used + [n]);
    r := Some(n);
  }

  // ------------------------------------------------------------------ a run

  function Target(job: Job, n: nat, removeExtensions: bool): string {
    NewName(job.isDir, n, if job.isDir || removeExtensions then [] else Extension(job.name))
  }

  /** The new name of an entry: a letter for its kind, the number in decimal, and of a file, unless extensions go, what follows its stem. */
  lemma {:induction false} TargetIs(job: Job, n: nat, removeExtensions: bool) returns (digits: string, stem: string, ext: string)
    ensures Target(job, n, removeExtensions) == [if job.isDir then 'd' else 'f'] + digits + (if job.isDir || removeExtensions then [] else ext)
    ensures AllDigits(digits) && Value(digits) == n
    ensures if n < 1000000 then |digits| == 6 else |digits| > 6 && digits[0] != '0'
    ensures job.name == stem + ext && (ext == [] <==> '.' !in job.name) && (ext != [] ==> ext[0] == '.' && '.' !in ext[1..])
  {
    digits, ext := Padded(n), Extension(job.name);
    PaddedIs(n);
    stem := ExtensionIs(job.name);
  }

  /** The way an entry and its number give the new name. */
  type Naming = (Job, nat) -> string

  /** A new name tells the kind and the number. */
  ghost predicate Separates(naming: Naming) {
    forall a, n, b, m :: naming(a, n) == naming(b, m) ==> a.isDir == b.isDir && n == m
  }

  /** The names of the program, with the file extensions kept or removed. */
  ghost predicate Standard(naming: Naming, removeExtensions: bool) {
    forall job, n :: naming(job, n) == Target(job, n, removeExtensions)
  }

  lemma {:induction false} StandardSeparates(naming: Naming, removeExtensions: bool)
    requires Standard(naming, removeExtensions)
    ensures Separates(naming)
  {
    forall a, n, b, m | naming(a, n) == naming(b, m) ensures a.isDir == b.isDir && n == m {
      NewNameInjective(a.isDir, n, if a.isDir || removeExtensions then [] else Extension(a.name),
                       b.isDir, m, if b.isDir || removeExtensions then [] else Extension(b.name));
    }
  }

  /** What has been done: each rename carries out one job under one number. */
  ghost predicate Recorded(log: seq<Rename>, done: seq<Job>, numbers: seq<nat>, naming: Naming) {
    && |log| == |done| == |numbers|
    && forall i {:trigger LoggedAt(log, done, numbers, naming, i)} :: 0 <= i < |log| ==> LoggedAt(log, done, numbers, naming, i)
  }

  ghost predicate LoggedAt(log: seq<Rename>, done: seq<Job>, numbers: seq<nat>, naming: Naming, i: nat)
    requires i < |log| == |done| == |numbers|
  {
    log[i] == Rename(done[i].path, done[i].name, naming(done[i], numbers[i]))
  }

  /** Jobs of one kind have different numbers. */
  ghost predicate NumbersDiffer(done: seq<Job>, numbers: seq<nat>)
    requires |done| == |numbers|
  {
    forall i, j {:trigger Differ(done, numbers, i, j)} :: 0 <= i < j < |done| ==> Differ(done, numbers, i, j)
  }

  ghost predicate Differ(done: seq<Job>, numbers: seq<nat>, i: nat, j: nat)
    requires i < |done| == |numbers| && j < |done|
  {
    done[i].isDir == done[j].isDir ==> numbers[i] != numbers[j]
  }

  ghost predicate InTurn(done: seq<Job>, numbers: seq<nat>, i: nat)
    requires i < |done| == |numbers|
  {
    numbers[i] == Count(done[..i], done[i].isDir) + 1
  }

  /** Sequential numbers count the jobs of one kind from 1. */
  ghost predicate Sequential(done: seq<Job>, numbers: seq<nat>)
    requires |done| == |numbers|
  {
    forall i {:trigger InTurn(done, numbers, i)} :: 0 <= i < |done| ==> InTurn(done, numbers, i)
  }

  ghost predicate DistinctTargets(log: seq<Rename>) {
    forall i, j :: 0 <= i < j < |log| ==> log[i].target != log[j].target
  }

  /** All new names of a run differ, wherever in the tree they are. */
  lemma {:induction false} TargetsDiffer(log: seq<Rename>, done: seq<Job>, numbers: seq<nat>, naming: Naming)
    requires Recorded(log, done, numbers, naming) && NumbersDiffer(done, numbers) && Separates(naming)
    ensures DistinctTargets(log)
  {
    forall i, j | 0 <= i < j < |log| ensures log[i].target != log[j].target {
      assert LoggedAt(log, done, numbers, naming, i) && LoggedAt(log, done, numbers, naming, j);
      assert Differ(done, numbers, i, j);
    }
  }

  /** The numbering of one kind accounts for the jobs of that kind. */
  ghost predicate Numbered(ns: Numbering, isDir: bool, done: seq<Job>, numbers: seq<nat>, random: bool) {
    && ValidNumbering(ns, random)
    && |done| == |numbers|
    && ns.count == Count(done, isDir)
    && forall i {:trigger Given(ns, isDir, done, numbers, i)} :: 0 <= i < |done| ==> Given(ns, isDir, done, numbers, i)
  }

  ghost predicate Given(ns: Numbering, isDir: bool, done: seq<Job>, numbers: seq<nat>, i: nat)
    requires i < |done| == |numbers|
  {
    done[i].isDir == isDir ==> numbers[i] in ns.used
  }

  /** The numbering of one kind moves on with a job of that kind, and only then. */
  ghost predicate NumberTaken(ns: Numbering, isDir: bool, job: Job, n: nat, ns': Numbering, random: bool) {
    && ValidNumbering(ns', random)
    && (job.isDir == isDir ==> n !in ns.used && ns' == Numbering(ns.count + 1, ns.used + [n]) && (!random ==> n == ns.count + 1))
    && (job.isDir != isDir ==> ns' == ns)
  }

  lemma {:induction false} NumberedExtends(ns: Numbering, isDir: bool, done: seq<Job>, numbers: seq<nat>, random: bool,
                                           ns': Numbering, job: Job, n: nat)
    requires Numbered(ns, isDir, done, numbers, random) && NumberTaken(ns, isDir, job, n, ns', random)
    ensures Numbered(ns', isDir, done + [job], numbers + [n], random)
  {
    assert (done + [job])[..|done|] == done;
    forall i | 0 <= i <= |done| ensures Given(ns', isDir, done + [job], numbers + [n], i) {
      assert i < |done| ==> Given(ns, isDir, done, numbers, i);
    }
  }

  datatype Options = Options(random: bool, naming: Naming)

  /** The tree, the log and the numberings, with the job and the number behind each line of the log. */
  datatype State = State(tree: Tree, log: seq<Rename>, files: Numbering, dirs: Numbering, done: seq<Job>, numbers: seq<nat>)

  function Start(t: Tree): State {
    State(t, [], Numbering(0, []), Numbering(0, []), [], [])
  }

  /** The log tells what was done, under which numbers, and how the tree came about. */
  ghost predicate Consistent(original: Tree, s: State, opts: Options) {
    && WellFormed(original) && WellFormed(s.tree) && s.tree.Dir?
    && Numbered(s.files, false, s.done, s.numbers, opts.random) && Numbered(s.dirs, true, s.done, s.numbers, opts.random)
    && Recorded(s.log, s.done, s.numbers, opts.naming)
    && NumbersDiffer(s.done, s.numbers)
    && (!opts.random ==> Sequential(s.done, s.numbers))
    && ApplyAll(original, s.log) == Some(s.tree)
  }

  ghost predicate Opened(key: int) {
    true
  }

  /** `Consistent`, behind a quantifier so that its parts enter a proof only through `Open`. */
  ghost predicate Valid(original: Tree, s: State, opts: Options) {
    forall key {:trigger Opened(key)} :: Opened(key) ==> Consistent(original, s, opts)
  }

  lemma {:induction false} Open(original: Tree, s: State, opts: Options)
    ensures Valid(original, s, opts) <==> Consistent(original, s, opts)
  {
    assert Opened(0);
  }

  function Perform(s: State, job: Job, n: nat, files': Numbering, dirs': Numbering, opts: Options): State
    requires CanRename(s.tree, Rename(job.path, job.name, opts.naming(job, n)))
  {
    var r := Rename(job.path, job.name, opts.naming(job, n));
    State(Apply(s.tree, r), s.log + [r], files', dirs', s.done + [job], s.numbers + [n])
  }

  lemma {:induction false} PerformKeepsValid(original: Tree, s: State, job: Job, n: nat, files': Numbering, dirs': Numbering, opts: Options)
    requires Valid(original, s, opts) && CanRename(s.tree, Rename(job.path, job.name, opts.naming(job, n)))
    requires NumberTaken(s.files, false, job, n, files', opts.random) && NumberTaken(s.dirs, true, job, n, dirs', opts.random)
    ensures Valid(original, Perform(s, job, n, files', dirs', opts), opts)
  {
    Open(original, s, opts);
    Open(original, Perform(s, job, n, files', dirs', opts), opts);
    RunExtends(original, s.log, s.tree, Rename(job.path, job.name, opts.naming(job, n)));
    RecordExtends(s.log, s.done, s.numbers, opts.naming, job, n);
    DifferExtends(if job.isDir then s.dirs else s.files, s.done, s.numbers, opts.random, job, n);
    NumberedExtends(s.files, false, s.done, s.numbers, opts.random, files', job, n);
    NumberedExtends(s.dirs, true, s.done, s.numbers, opts.random, dirs', job, n);
  }

  /** No number is left, or the number that is next (in a random run: one that could be) leads to a name that is taken. */
  ghost predicate Stuck(s: State, opts: Options, job: Job) {
    var ns := if job.isDir then s.dirs else s.files;
    || ns.count == LIMIT - 1
    || exists n: nat {:trigger opts.naming(job, n)} ::
         && 1 <= n <= LIMIT && n !in ns.used && (!opts.random ==> n == ns.count + 1)
         && At(s.tree, job.path + [opts.naming(job, n)]).Some?
  }

  /** One more rename, of the given entry, has been done and logged. */
  ghost predicate Renamed(s: State, job: Job, s': State) {
    && |s'.log| == |s.log| + 1 && s'.log[..|s.log|] == s.log
    && var r := s'.log[|s.log|];
       r.path == job.path && r.source == job.name && CanRename(s.tree, r) && s'.tree == Apply(s.tree, r)
  }

  /** The next number of the kind of an entry, and the two numberings after that. */
  method TakeNumber(s: State, job: Job, opts: Options) returns (number: Option<nat>, files: Numbering, dirs: Numbering)
    requires ValidNumbering(s.files, opts.random) && ValidNumbering(s.dirs, opts.random)
    ensures var ns := if job.isDir then s.dirs else s.files;
            (number.None? <==> ns.count == LIMIT - 1) && (number.Some? ==> 1 <= number.value <= LIMIT && number.value !in ns.used)
    ensures number.Some? ==>
              && NumberTaken(s.files, false, job, number.value, files, opts.random)
              && NumberTaken(s.dirs, true, job, number.value, dirs, opts.random)
  {
    files, dirs := s.files, s.dirs;
    if job.isDir {
      number, dirs := NextNumber(dirs, opts.random);
    } else {
      number, files := NextNumber(files, opts.random);
    }
  }

  /** A line that was printed although its rename was not done: an entry with the new name is in the way. */
  ghost predicate InTheWay(t: Tree, stray: Option<Rename>) {
    stray.Some? ==> HasEntry(t, stray.value.path, stray.value.source) && HasEntry(t, stray.value.path, stray.value.target)
  }

  /**
   Rename of one entry that is there. The program prints the line before it tests the new name, and ends when it
   is stuck; `stray` is the line that is then printed too much.
   */
  method RenameEntry(ghost original: Tree, s: State, job: Job, opts: Options) returns (ok: bool, s': State, stray: Option<Rename>)
    requires Valid(original, s, opts) && HasEntry(s.tree, job.path, job.name)
    ensures Valid(original, s', opts)
    ensures !ok ==> s' == s && Stuck(s, opts, job)
    ensures InTheWay(s'.tree, stray) && (ok ==> stray.None?)
    ensures !ok && stray.None? ==> (if job.isDir then s.dirs else s.files).count == LIMIT - 1
    ensures ok ==> s'.done == s.done + [job] && Renamed(s, job, s')
  {
    Open(original, s, opts);
    var number, files, dirs := TakeNumber(s, job, opts);
    if number.None? {
      return false, s, None;
    }
    var target := opts.naming(job, number.value);
    if At(s.tree, job.path + [target]).Some? {
      EntryIsThere(s.tree, job.path, job.name, target);
      return false, s, Some(Rename(job.path, job.name, target));
    }
    EntryCanRename(s.tree, Rename(job.path, job.name, target));
    PerformKeepsValid(original, s, job, number.value, files, dirs, opts);
    return true, Perform(s, job, number.value, files, dirs, opts), None;
  }

  ghost predicate GivenName(log: seq<Rename>, name: string) {
    exists k :: 0 <= k < |log| && log[k].target == name
  }

  /** A name in a directory was given, or belongs to an entry that is still to be renamed. */
  ghost predicate Explained(s: State, plan: seq<Job>, path: Path) {
    forall name {:trigger At(s.tree, path + [name])} ::
      At(s.tree, path + [name]).Some? ==> GivenName(s.log, name) || JobWaits(plan, |s.done|, path, name)
  }

  /** The jobs up to one that is stuck are done. */
  ghost predicate Halted(s: State, opts: Options, plan: seq<Job>) {
    && |s.done| < |plan| && s.done == plan[..|s.done|]
    && Stuck(s, opts, plan[|s.done|]) && Explained(s, plan, plan[|s.done|].path)
  }

  /** A new name was at its time not the name of an entry still to be renamed in the same directory. */
  ghost predicate ClearAt(log: seq<Rename>, plan: seq<Job>, k: nat)
    requires k < |log|
  {
    !JobWaits(plan, k, log[k].path, log[k].target)
  }

  ghost predicate Clear(log: seq<Rename>, plan: seq<Job>) {
    forall k {:trigger ClearAt(log, plan, k)} :: 0 <= k < |log| ==> ClearAt(log, plan, k)
  }

  /** The loop over one kind of visit `w` stands at item `i`. */
  ghost predicate Standing(s: State, visits: seq<Visit>, w: nat, isDir: bool, i: nat) {
    && w < |visits| && i <= |visits[w].items| && DistinctPaths(visits) && |s.log| == |s.done|
    && s.done == Plan(visits, w) + DoneOf(visits[w], isDir, i)
    && Awaits(s.tree, s.log, visits[w], isDir, i) && Clear(s.log, Plan(visits, |visits|))
  }

  lemma {:induction false} NamesExplained(s: State, visits: seq<Visit>, w: nat, isDir: bool, i: nat)
    requires Standing(s, visits, w, isDir, i)
    ensures Explained(s, Plan(visits, |visits|), visits[w].path)
  {
    var plan, v := Plan(visits, |visits|), visits[w];
    forall name | At(s.tree, v.path + [name]).Some? ensures GivenName(s.log, name) || JobWaits(plan, |s.done|, v.path, name) {
      AtEntry(s.tree, v.path, name);
      AwaitedName(s.tree, s.log, v, isDir, i, name);
      SameWaiting(visits, w, isDir, i, name);
    }
  }

  /** A rename that was possible has not taken a name that waits. */
  lemma {:induction false} RenameIsClear(s: State, visits: seq<Visit>, w: nat, isDir: bool, i: nat, r: Rename)
    requires Standing(s, visits, w, isDir, i) && r.path == visits[w].path && CanRename(s.tree, r)
    ensures Clear(s.log + [r], Plan(visits, |visits|))
  {
    var plan, v, log' := Plan(visits, |visits|), visits[w], s.log + [r];
    forall k | 0 <= k < |log'| ensures ClearAt(log', plan, k) {
      if k < |s.log| {
        assert ClearAt(s.log, plan, k);
      } else {
        SameWaiting(visits, w, isDir, i, r.target);
        WaitingIsThere(s.tree, s.log, v, isDir, i, r.target);
      }
    }
  }

  method RenameItem(ghost original: Tree, s: State, v: Visit, isDir: bool, i: nat, opts: Options, ghost visits: seq<Visit>, ghost w: nat)
    returns (ok: bool, s': State, stray: Option<Rename>)
    requires Valid(original, s, opts) && Standing(s, visits, w, isDir, i) && v == visits[w]
    requires i < |v.items| && v.items[i].isDir == isDir
    ensures InTheWay(s'.tree, stray) && (ok ==> stray.None?)
    ensures Valid(original, s', opts)
    ensures ok ==> Standing(s', visits, w, isDir, i + 1) && SameOutside(s.tree, s'.tree, v.path)
    ensures !ok ==> Halted(s', opts, Plan(visits, |visits|)) && SameOutside(s.tree, s'.tree, v.path)
  {
    Open(original, s, opts);
    AwaitedEntry(s.tree, s.log, v, isDir, i);
    ok, s', stray := RenameEntry(original, s, Job(v.path, v.items[i].name, isDir), opts);
    if ok {
      ItemRenamed(s, s', visits, w, isDir, i);
    } else {
      ItemStuck(s, opts, visits, w, isDir, i);
    }
  }

  lemma {:induction false} DoneNext(visits: seq<Visit>, w: nat, isDir: bool, i: nat)
    requires w < |visits| && i < |visits[w].items| && visits[w].items[i].isDir == isDir
    ensures Plan(visits, w) + DoneOf(visits[w], isDir, i + 1)
         == Plan(visits, w) + DoneOf(visits[w], isDir, i) + [Job(visits[w].path, visits[w].items[i].name, isDir)]
  {
    var v := visits[w];
    assert Chosen(v.path, v.items, isDir, i + 1) == Chosen(v.path, v.items, isDir, i) + [Job(v.path, v.items[i].name, isDir)];
  }

  lemma {:induction false} ItemRenamed(s: State, s': State, visits: seq<Visit>, w: nat, isDir: bool, i: nat)
    requires Standing(s, visits, w, isDir, i) && i < |visits[w].items| && visits[w].items[i].isDir == isDir && WellFormed(s.tree)
    requires var job := Job(visits[w].path, visits[w].items[i].name, isDir);
             s'.done == s.done + [job] && Renamed(s, job, s')
    ensures Standing(s', visits, w, isDir, i + 1) && SameOutside(s.tree, s'.tree, visits[w].path)
  {
    var v, r := visits[w], s'.log[|s.log|];
    assert s'.log == s.log + [r];
    AwaitsNext(s.tree, s.log, v, isDir, i, r);
    RenameIsClear(s, visits, w, isDir, i, r);
    DoneNext(visits, w, isDir, i);
  }

  lemma {:induction false} ItemStuck(s: State, opts: Options, visits: seq<Visit>, w: nat, isDir: bool, i: nat)
    requires Standing(s, visits, w, isDir, i) && i < |visits[w].items| && visits[w].items[i].isDir == isDir
    requires Stuck(s, opts, Job(visits[w].path, visits[w].items[i].name, isDir))
    ensures Halted(s, opts, Plan(visits, |visits|))
  {
    NamesExplained(s, visits, w, isDir, i);
    DoneIsFront(visits, w, isDir, i);
    var j := WaitingJob(visits, w, isDir, i, i);
  }

  /** One of the two loops over a directory: the entries of one kind are renamed in order. */
  method RenameKind(ghost original: Tree, s: State, v: Visit, isDir: bool, opts: Options, ghost visits: seq<Visit>, ghost w: nat)
    returns (ok: bool, s': State, stray: Option<Rename>)
    requires Valid(original, s, opts) && Standing(s, visits, w, isDir, 0) && v == visits[w]
    ensures InTheWay(s'.tree, stray) && (ok ==> stray.None?)
    ensures Valid(original, s', opts) && SameOutside(s.tree, s'.tree, v.path)
    ensures ok ==> Standing(s', visits, w, isDir, |v.items|)
    ensures !ok ==> Halted(s', opts, Plan(visits, |visits|))
  {
    s', stray := s, None;
    for i := 0 to |v.items|
      invariant Valid(original, s', opts) && SameOutside(s.tree, s'.tree, v.path) && Standing(s', visits, w, isDir, i)
      invariant stray.None?
    {
      if v.items[i].isDir == isDir {
        ghost var before := s'.tree;
        ok, s', stray := RenameItem(original, s', v, isDir, i, opts, visits, w);
        OutsideComposes(s.tree, before, s'.tree, v.path);
        if !ok {
          return;
        }
      } else {
        StandingSkip(s', visits, w, isDir, i);
      }
    }
    ok := true;
  }

  lemma {:induction false} StandingSkip(s: State, visits: seq<Visit>, w: nat, isDir: bool, i: nat)
    requires Standing(s, visits, w, isDir, i) && i < |visits[w].items| && visits[w].items[i].isDir != isDir
    ensures Standing(s, visits, w, isDir, i + 1)
  {
    AwaitsSkip(s.tree, s.log, visits[w], isDir, i);
    var v := visits[w];
    assert Chosen(v.path, v.items, isDir, i + 1) == Chosen(v.path, v.items, isDir, i) + [];
    assert DoneOf(v, isDir, i + 1) == DoneOf(v, isDir, i);
  }

  /** Between two visits. */
  ghost predicate Between(s: State, visits: seq<Visit>, w: nat) {
    && w <= |visits| && DistinctPaths(visits) && |s.log| == |s.done|
    && s.done == Plan(visits, w) && Clear(s.log, Plan(visits, |visits|))
  }

  lemma {:induction false} StandingAtEnds(s: State, visits: seq<Visit>, w: nat)
    requires w < |visits|
    ensures Between(s, visits, w) && ListedAt(s.tree, visits[w].path) == Some(visits[w].items) ==> Standing(s, visits, w, false, 0)
    ensures Standing(s, visits, w, false, |visits[w].items|) ==> Standing(s, visits, w, true, 0)
    ensures Standing(s, visits, w, true, |visits[w].items|) ==> Between(s, visits, w + 1)
  {
    var v := visits[w];
    AwaitsAll(s.tree, s.log, v);
    assert Plan(visits, w) + DoneOf(v, false, 0) == Plan(visits, w);
    assert DoneOf(v, false, |v.items|) == DoneOf(v, true, 0);
    assert Plan(visits, w) + DoneOf(v, true, |v.items|) == Plan(visits, w + 1);
  }

  /** One round of the walk. */
  method RenameDirectory(ghost original: Tree, s: State, v: Visit, opts: Options, ghost visits: seq<Visit>, ghost w: nat)
    returns (ok: bool, s': State, stray: Option<Rename>)
    requires Valid(original, s, opts) && w < |visits| && v == visits[w] && Between(s, visits, w)
    requires ListedAt(s.tree, v.path) == Some(v.items)
    ensures InTheWay(s'.tree, stray) && (ok ==> stray.None?)
    ensures Valid(original, s', opts) && SameOutside(s.tree, s'.tree, v.path)
    ensures ok ==> Between(s', visits, w + 1)
    ensures !ok ==> Halted(s', opts, Plan(visits, |visits|))
  {
    StandingAtEnds(s, visits, w);
    ok, s', stray := RenameKind(original, s, v, false, opts, visits, w);
    if ok {
      StandingAtEnds(s', visits, w);
      ghost var between := s'.tree;
      ok, s', stray := RenameKind(original, s', v, true, opts, visits, w);
      OutsideComposes(s.tree, between, s'.tree, v.path);
      StandingAtEnds(s', visits, w);
    }
  }

  /** The visits from the `i`-th on still see the listings they saw at first. */
  ghost predicate Undisturbed(t: Tree, visits: seq<Visit>, i: nat) {
    forall j :: i <= j < |visits| ==> ListedAt(t, visits[j].path) == Some(visits[j].items)
  }

  lemma {:induction false} Untouched(t: Tree)
    requires WellFormed(t) && t.Dir?
    ensures Undisturbed(t, Walk(t, []), 0)
  {
    var visits := Walk(t, []);
    forall j | 0 <= j < |visits| ensures ListedAt(t, visits[j].path) == Some(visits[j].items) {
      WalkShows(t, [], j);
      assert visits[j].path[0..] == visits[j].path;
    }
  }

  lemma {:induction false} VisitDisturbsNoLater(original: Tree, t: Tree, t': Tree, i: nat)
    requires WellFormed(original) && original.Dir? && i < |Walk(original, [])|
    requires Undisturbed(t, Walk(original, []), i) && SameOutside(t, t', Walk(original, [])[i].path)
    ensures Undisturbed(t', Walk(original, []), i + 1)
  {
    var visits := Walk(original, []);
    forall j | i + 1 <= j < |visits| ensures ListedAt(t', visits[j].path) == Some(visits[j].items) {
      WalkPostorder(original, [], i, j);
    }
  }

  lemma {:induction false} StartValid(t: Tree, opts: Options)
    requires WellFormed(t) && t.Dir?
    ensures Valid(t, Start(t), opts) && Undisturbed(t, Walk(t, []), 0) && Between(Start(t), Walk(t, []), 0)
  {
    Open(t, Start(t), opts);
    Untouched(t);
    forall i, j | 0 <= i < j < |Walk(t, [])| ensures Walk(t, [])[i].path != Walk(t, [])[j].path {
      WalkPostorder(t, [], i, j);
    }
  }

  /** The rounds of the walk, up to the end or to the first entry that is stuck. */
  method RenameAll(t: Tree, opts: Options) returns (ok: bool, s: State, stray: Option<Rename>)
    requires WellFormed(t) && t.Dir?
    ensures InTheWay(s.tree, stray) && (ok ==> stray.None?)
    ensures Valid(t, s, opts)
    ensures ok ==> s.done == Plan(Walk(t, []), |Walk(t, [])|) && Clear(s.log, Plan(Walk(t, []), |Walk(t, [])|))
    ensures !ok ==> Halted(s, opts, Plan(Walk(t, []), |Walk(t, [])|))
  {
    var visits := Walk(t, []);
    s, stray := Start(t), None;
    StartValid(t, opts);
    for i := 0 to |visits|
      invariant Valid(t, s, opts) && Undisturbed(s.tree, visits, i) && Between(s, visits, i) && stray.None?
    {
      ghost var before := s.tree;
      ok, s, stray := RenameDirectory(t, s, visits[i], opts, visits, i);
      if !ok {
        return;
      }
      VisitDisturbsNoLater(t, before, s.tree, i);
    }
    ok := true;
  }

  /** The log is the run: it leads from `t` to the tree and back, and its new names are pairwise different. */
  ghost predicate Accounted(t: Tree, s: State) {
    && ApplyAll(t, s.log) == Some(s.tree) && ApplyAll(s.tree, Reversed(s.log)) == Some(t)
    && WellFormed(s.tree) && ShapeOf(s.tree) == ShapeOf(t)
    && DistinctTargets(s.log)
  }

  lemma {:induction false} ValidIsAccounted(t: Tree, s: State, opts: Options, removeExtensions: bool)
    requires Valid(t, s, opts) && Standard(opts.naming, removeExtensions)
    ensures Accounted(t, s)
  {
    Open(t, s, opts);
    StandardSeparates(opts.naming, removeExtensions);
    TargetsDiffer(s.log, s.done, s.numbers, opts.naming);
    ReplayRestores(t, s.log);
    RenamesKeepShape(t, s.log);
  }

  /** The names are those of the program, and a run that is not random numbers each kind from 1. */
  ghost predicate Labelled(s: State, random: bool, removeExtensions: bool) {
    && |s.log| == |s.done| == |s.numbers|
    && (forall i :: 0 <= i < |s.log| ==>
          s.log[i] == Rename(s.done[i].path, s.done[i].name, Target(s.done[i], s.numbers[i], removeExtensions)))
    && (!random ==> Sequential(s.done, s.numbers))
  }

  lemma {:induction false} ValidIsLabelled(t: Tree, s: State, opts: Options, removeExtensions: bool)
    requires Valid(t, s, opts) && Standard(opts.naming, removeExtensions)
    ensures Labelled(s, opts.random, removeExtensions)
  {
    Open(t, s, opts);
    forall i | 0 <= i < |s.log|
      ensures s.log[i] == Rename(s.done[i].path, s.done[i].name, Target(s.done[i], s.numbers[i], removeExtensions))
    {
      assert LoggedAt(s.log, s.done, s.numbers, opts.naming, i);
    }
  }

  /** All entries are renamed, or all up to one that cannot be. */
  ghost predicate Finished(t: Tree, s: State, random: bool, removeExtensions: bool, ok: bool)
    requires t.Dir?
  {
    var plan := Plan(Walk(t, []), |Walk(t, [])|);
    if ok then s.done == plan
    else
      exists naming {:trigger Standard(naming, removeExtensions)} ::
        Standard(naming, removeExtensions) && Halted(s, Options(random, naming), plan)
  }

  // ------------------------------------------------------------------ when a run gets to the end

  /** Some entry has the name. */
  ghost predicate Named(t: Tree, name: string) {
    t.Dir? && exists i :: 0 <= i < |t.entries| && (t.entries[i].name == name || Named(t.entries[i].tree, name))
  }

  lemma {:induction false} NamedAt(t: Tree, path: Path, name: string)
    requires At(t, path).Some? && Named(At(t, path).value, name)
    ensures Named(t, name)
    decreases |path|
  {
    if path != [] {
      NamedAt(t.entries[IndexOf(t.entries, path[0])].tree, path[1..], name);
    }
  }

  lemma {:induction false} NamedPut(t: Tree, path: Path, x: Tree, name: string)
    requires At(t, path).Some? && Named(Put(t, path, x), name)
    ensures Named(t, name) || Named(x, name)
    decreases |path|
  {
    if path != [] {
      var i, es := IndexOf(t.entries, path[0]), Put(t, path, x).entries;
      var k :| 0 <= k < |es| && (es[k].name == name || Named(es[k].tree, name));
      if k == i && es[k].name != name {
        NamedPut(t.entries[i].tree, path[1..], x, name);
      }
      assert t.entries[k].name == es[k].name;
    }
  }

  lemma {:induction false} NamedApply(t: Tree, r: Rename, name: string)
    requires CanRename(t, r) && Named(Apply(t, r), name)
    ensures Named(t, name) || name == r.target
  {
    var d := At(t, r.path).value;
    var es := RenameIn(d.entries, r.source, r.target);
    NamedPut(t, r.path, Dir(es), name);
    if Named(Dir(es), name) && name != r.target {
      var k :| 0 <= k < |es| && (es[k].name == name || Named(es[k].tree, name));
      assert es[k].tree == d.entries[k].tree;
      assert Named(d, name);
      NamedAt(t, r.path, name);
    }
  }

  /** Every name of the tree is an old one or one that was given. */
  lemma {:induction false} NamedInRun(t: Tree, log: seq<Rename>, name: string)
    requires ApplyAll(t, log).Some? && Named(ApplyAll(t, log).value, name)
    ensures Named(t, name) || exists i :: 0 <= i < |log| && log[i].target == name
  {
    if log != [] {
      var init, r := log[..|log| - 1], log[|log| - 1];
      NamedApply(ApplyAll(t, init).value, r, name);
      if name != r.target {
        NamedInRun(t, init, name);
      }
    }
  }

  lemma {:induction false} PresentIsNamed(t: Tree, path: Path, name: string)
    requires At(t, path + [name]).Some?
    ensures Named(t, name)
    decreases |path|
  {
    var p := path + [name];
    var i := IndexOf(t.entries, p[0]);
    if path != [] {
      assert p[1..] == path[1..] + [name];
      PresentIsNamed(t.entries[i].tree, path[1..], name);
    }
  }

  /** No entry has a name of the kind that the program gives. */
  ghost predicate Unnumbered(t: Tree) {
    forall job, n, removeExtensions :: !Named(t, Target(job, n, removeExtensions))
  }

  /** The number of a name that was given is used. */
  lemma {:induction false} GivenIsUsed(t: Tree, s: State, opts: Options, removeExtensions: bool, job: Job, n: nat, i: nat)
    requires Valid(t, s, opts) && Standard(opts.naming, removeExtensions)
    requires i < |s.log| && s.log[i].target == opts.naming(job, n)
    ensures n in (if job.isDir then s.dirs else s.files).used
  {
    Open(t, s, opts);
    StandardSeparates(opts.naming, removeExtensions);
    assert LoggedAt(s.log, s.done, s.numbers, opts.naming, i);
    assert Given(if job.isDir then s.dirs else s.files, job.isDir, s.done, s.numbers, i);
  }

  /** A new name can only be taken if it was in the tree from the start. */
  lemma {:induction false} NoCollision(t: Tree, s: State, opts: Options, removeExtensions: bool, job: Job, n: nat)
    requires Valid(t, s, opts) && Standard(opts.naming, removeExtensions) && Unnumbered(t)
    requires n !in (if job.isDir then s.dirs else s.files).used
    ensures At(s.tree, job.path + [opts.naming(job, n)]).None?
  {
    var target := opts.naming(job, n);
    if At(s.tree, job.path + [target]).Some? {
      Open(t, s, opts);
      PresentIsNamed(s.tree, job.path, target);
      assert target == Target(job, n, removeExtensions);
      NamedInRun(t, s.log, target);
      var i :| 0 <= i < |s.log| && s.log[i].target == target;
      GivenIsUsed(t, s, opts, removeExtensions, job, n, i);
      assert false;
    }
  }

  lemma {:induction false} CountGrows(jobs: seq<Job>, k: nat, n: nat, isDir: bool)
    requires k <= n <= |jobs|
    ensures Count(jobs[..k], isDir) <= Count(jobs[..n], isDir)
    ensures k < n && jobs[k].isDir == isDir ==> Count(jobs[..k], isDir) < Count(jobs[..n], isDir)
  {
    if k < n {
      CountGrows(jobs, k, n - 1, isDir);
      assert jobs[..n][..n - 1] == jobs[..n - 1];
    }
  }

  /** Fewer than a million files and fewer than a million directories. */
  ghost predicate Countable(plan: seq<Job>) {
    Count(plan, false) < LIMIT && Count(plan, true) < LIMIT
  }

  /** Whatever numbers are drawn, no new name is that of an entry of the same directory still to be renamed. */
  ghost predicate Unblockable(plan: seq<Job>, removeExtensions: bool) {
    forall k, n: nat {:trigger Target(plan[k], n, removeExtensions)} ::
      0 <= k < |plan| && 1 <= n <= LIMIT ==> !JobWaits(plan, k, plan[k].path, Target(plan[k], n, removeExtensions))
  }

  /** Then only the number of entries can end a run early. */
  lemma {:induction false} EndsWhenCountable(t: Tree, s: State, opts: Options, removeExtensions: bool, ok: bool, plan: seq<Job>)
    requires Valid(t, s, opts) && Standard(opts.naming, removeExtensions) && Unblockable(plan, removeExtensions)
    requires if ok then s.done == plan else Halted(s, opts, plan)
    ensures ok <==> Countable(plan)
  {
    Open(t, s, opts);
    if !ok {
      var job := plan[|s.done|];
      var ns := if job.isDir then s.dirs else s.files;
      if ns.count < LIMIT - 1 {
        var n: nat :| 1 <= n <= LIMIT && n !in ns.used && At(s.tree, job.path + [opts.naming(job, n)]).Some?;
        TakenWaits(t, s, opts, removeExtensions, plan, job, n);
        assert false;
      }
      CountGrows(plan, |s.done|, |plan|, job.isDir);
      assert plan[..|plan|] == plan;
    }
  }

  /** A tree without numbered names is one in which nothing can be in the way. */
  lemma {:induction false} UnnumberedIsUnblockable(t: Tree, removeExtensions: bool)
    requires WellFormed(t) && t.Dir? && Unnumbered(t)
    ensures Unblockable(Plan(Walk(t, []), |Walk(t, [])|), removeExtensions)
  {
    var visits := Walk(t, []);
    var plan := Plan(visits, |visits|);
    forall k, n: nat | 0 <= k < |plan| && 1 <= n <= LIMIT ensures !JobWaits(plan, k, plan[k].path, Target(plan[k], n, removeExtensions)) {
      if JobWaits(plan, k, plan[k].path, Target(plan[k], n, removeExtensions)) {
        var j :| k <= j < |plan| && plan[j].path == plan[k].path && plan[j].name == Target(plan[k], n, removeExtensions);
        PlannedIsNamed(t, j);
        assert false;
      }
    }
  }

  /** Every job of the plan is about a name in the tree. */
  lemma {:induction false} PlannedIsNamed(t: Tree, j: nat)
    requires WellFormed(t) && t.Dir? && j < |Plan(Walk(t, []), |Walk(t, [])|)|
    ensures Named(t, Plan(Walk(t, []), |Walk(t, [])|)[j].name)
  {
    var visits := Walk(t, []);
    var w, k := PlanLocate(visits, |visits|, j);
    var v := visits[w];
    WalkShows(t, [], w);
    assert v.path[0..] == v.path;
    var n, files := |v.items|, |Chosen(v.path, v.items, false, |v.items|)|;
    var m := 0;
    if k < files {
      m := ChosenLocate(v.path, v.items, false, n, 0, k);
    } else {
      m := ChosenLocate(v.path, v.items, true, n, 0, k - files);
    }
    var d := At(t, v.path).value;
    assert d.entries[m].name == v.items[m].name;
    NamedAt(t, v.path, v.items[m].name);
  }

  /** The name that a sequential run gives to entry `k` of the plan. */
  function NextName(plan: seq<Job>, k: nat, removeExtensions: bool): string
    requires k < |plan|
  {
    Target(plan[k], Count(plan[..k], plan[k].isDir) + 1, removeExtensions)
  }

  /** Entry `k` has a number, and its new name is not that of an entry of its directory still to be renamed, itself included. */
  ghost predicate UnblockedAt(plan: seq<Job>, k: nat, removeExtensions: bool)
    requires k < |plan|
  {
    Count(plan[..k], plan[k].isDir) + 1 < LIMIT && !JobWaits(plan, k, plan[k].path, NextName(plan, k, removeExtensions))
  }

  ghost predicate Unblocked(plan: seq<Job>, removeExtensions: bool) {
    forall k {:trigger UnblockedAt(plan, k, removeExtensions)} :: 0 <= k < |plan| ==> UnblockedAt(plan, k, removeExtensions)
  }

  lemma {:induction false} DoneIsUnblocked(t: Tree, s: State, opts: Options, removeExtensions: bool, plan: seq<Job>, k: nat)
    requires Valid(t, s, opts) && Standard(opts.naming, removeExtensions) && !opts.random
    requires s.done == plan && Clear(s.log, plan) && k < |plan|
    ensures UnblockedAt(plan, k, removeExtensions)
  {
    Open(t, s, opts);
    assert LoggedAt(s.log, s.done, s.numbers, opts.naming, k) && InTurn(s.done, s.numbers, k) && ClearAt(s.log, plan, k);
    CountGrows(plan, k, |plan|, plan[k].isDir);
    assert plan[..|plan|] == plan;
  }

  lemma {:induction false} Counted(t: Tree, s: State, opts: Options, isDir: bool)
    requires Valid(t, s, opts)
    ensures (if isDir then s.dirs else s.files).count == Count(s.done, isDir)
  {
    Open(t, s, opts);
  }

  lemma {:induction false} HaltedIsBlocked(t: Tree, s: State, opts: Options, removeExtensions: bool, plan: seq<Job>)
    requires Valid(t, s, opts) && Standard(opts.naming, removeExtensions) && !opts.random && Halted(s, opts, plan)
    ensures !UnblockedAt(plan, |s.done|, removeExtensions)
  {
    var job := plan[|s.done|];
    Counted(t, s, opts, job.isDir);
    StuckInTurn(t, s, opts, removeExtensions, plan, job, Count(s.done, job.isDir));
  }

  lemma {:induction false} StuckInTurn(t: Tree, s: State, opts: Options, removeExtensions: bool, plan: seq<Job>, job: Job, count: nat)
    requires Valid(t, s, opts) && Standard(opts.naming, removeExtensions) && !opts.random && Stuck(s, opts, job) && Explained(s, plan, job.path)
    requires (if job.isDir then s.dirs else s.files).count == count
    ensures count == LIMIT - 1 || JobWaits(plan, |s.done|, job.path, Target(job, count + 1, removeExtensions))
  {
    var ns := if job.isDir then s.dirs else s.files;
    if count != LIMIT - 1 {
      var n: nat :| 1 <= n <= LIMIT && n !in ns.used && n == ns.count + 1 && At(s.tree, job.path + [opts.naming(job, n)]).Some?;
      TakenWaits(t, s, opts, removeExtensions, plan, job, n);
    }
  }

  /** A name that is taken is that of an entry still to be renamed. */
  lemma {:induction false} TakenWaits(t: Tree, s: State, opts: Options, removeExtensions: bool, plan: seq<Job>, job: Job, n: nat)
    requires Valid(t, s, opts) && Standard(opts.naming, removeExtensions) && Explained(s, plan, job.path)
    requires n !in (if job.isDir then s.dirs else s.files).used && At(s.tree, job.path + [opts.naming(job, n)]).Some?
    ensures JobWaits(plan, |s.done|, job.path, Target(job, n, removeExtensions))
  {
    var name := opts.naming(job, n);
    if GivenName(s.log, name) {
      var i :| 0 <= i < |s.log| && s.log[i].target == name;
      GivenIsUsed(t, s, opts, removeExtensions, job, n, i);
      assert false;
    }
    assert name == Target(job, n, removeExtensions);
  }

  /** A sequential run stops exactly at an entry without a number, or whose new name is that of an entry not yet renamed. */
  lemma {:induction false} EndsWhenUnblocked(t: Tree, s: State, opts: Options, removeExtensions: bool, ok: bool, plan: seq<Job>)
    requires Valid(t, s, opts) && Standard(opts.naming, removeExtensions) && !opts.random
    requires if ok then s.done == plan && Clear(s.log, plan) else Halted(s, opts, plan)
    ensures ok <==> Unblocked(plan, removeExtensions)
  {
    if ok {
      forall k | 0 <= k < |plan| ensures UnblockedAt(plan, k, removeExtensions) {
        DoneIsUnblocked(t, s, opts, removeExtensions, plan, k);
      }
    } else {
      HaltedIsBlocked(t, s, opts, removeExtensions, plan);
    }
  }

  /** When a run gets to the end: exactly, for a sequential run, and for any run that no draw can block. */
  ghost predicate EndsRightly(t: Tree, random: bool, removeExtensions: bool, ok: bool)
    requires t.Dir?
  {
    var plan := Plan(Walk(t, []), |Walk(t, [])|);
    && (!random ==> (ok <==> Unblocked(plan, removeExtensions)))
    && (Unblockable(plan, removeExtensions) ==> (ok <==> Countable(plan)))
  }

  lemma {:induction false} RunEndsRightly(t: Tree, s: State, opts: Options, removeExtensions: bool, ok: bool, plan: seq<Job>)
    requires t.Dir? && Valid(t, s, opts) && Standard(opts.naming, removeExtensions) && plan == Plan(Walk(t, []), |Walk(t, [])|)
    requires if ok then s.done == plan && Clear(s.log, plan) else Halted(s, opts, plan)
    ensures EndsRightly(t, opts.random, removeExtensions, ok) && Finished(t, s, opts.random, removeExtensions, ok)
  {
    if !opts.random {
      EndsWhenUnblocked(t, s, opts, removeExtensions, ok, plan);
    }
    if Unblockable(plan, removeExtensions) {
      EndsWhenCountable(t, s, opts, removeExtensions, ok, plan);
    }
    assert opts == Options(opts.random, opts.naming);
  }

  lemma {:induction false} FailsAtFirst(t: Tree, r: Rename, rs: seq<Rename>)
    requires !CanRename(t, r)
    ensures ApplyAll(t, [r] + rs).None?
  {
    var all := [r] + rs;
    if rs == [] {
      assert all[..0] == [] && ApplyAll(t, []) == Some(t);
    } else {
      FailsAtFirst(t, r, rs[..|rs| - 1]);
      assert all[..|all| - 1] == [r] + rs[..|rs| - 1];
    }
  }

  /** The printed mapping of a run that ended at a name in the way cannot be replayed backwards. */
  lemma {:induction false} StrayLine(t: Tree, log: seq<Rename>, r: Rename)
    requires InTheWay(t, Some(r))
    ensures ApplyAll(t, Reversed(log + [r])).None?
  {
    assert (log + [r])[..|log|] == log;
    assert Reversed(log + [r]) == [Undo(r)] + Reversed(log);
    FailsAtFirst(t, Undo(r), Reversed(log));
  }

  /** The printed mapping undoes the run exactly if it is what was done; it is if the run got to the end. */
  ghost predicate Replayable(t: Tree, s: State, printed: seq<Rename>, ok: bool) {
    && (printed == s.log || (|printed| == |s.log| + 1 && printed[..|s.log|] == s.log))
    && (ok ==> printed == s.log)
    && (ApplyAll(s.tree, Reversed(printed)) == Some(t) <==> printed == s.log)
  }

  /** The whole program, and the mapping that it prints. */
  method Anonymize(t: Tree, random: bool, removeExtensions: bool) returns (ok: bool, s: State, printed: seq<Rename>)
    requires WellFormed(t) && t.Dir?
    ensures Accounted(t, s) && Labelled(s, random, removeExtensions) && Finished(t, s, random, removeExtensions, ok)
    ensures EndsRightly(t, random, removeExtensions, ok) && Replayable(t, s, printed, ok)
  {
    var opts := Options(random, (job: Job, n: nat) => Target(job, n, removeExtensions));
    assert Standard(opts.naming, removeExtensions);
    var stray;
    ok, s, stray := RenameAll(t, opts);
    ValidIsAccounted(t, s, opts, removeExtensions);
    ValidIsLabelled(t, s, opts, removeExtensions);
    RunEndsRightly(t, s, opts, removeExtensions, ok, Plan(Walk(t, []), |Walk(t, [])|));
    printed := s.log;
    if stray.Some? {
      StrayLine(s.tree, s.log, stray.value);
      printed := printed + [stray.value];
    }
  }

  /** The entries of a directory still to be renamed are there under their old names, the others under names that were given. */
  ghost predicate Awaits(t: Tree, log: seq<Rename>, v: Visit, isDir: bool, i: nat) {
    ListedAt(t, v.path).Some? && AwaitsIn(ListedAt(t, v.path).value, log, v, isDir, i)
  }

  ghost predicate AwaitsIn(now: seq<Item>, log: seq<Rename>, v: Visit, isDir: bool, i: nat) {
    && |now| == |v.items|
    && forall j {:trigger AwaitsAt(now, log, v, isDir, i, j)} :: 0 <= j < |now| ==> AwaitsAt(now, log, v, isDir, i, j)
  }

  ghost predicate AwaitsAt(now: seq<Item>, log: seq<Rename>, v: Visit, isDir: bool, i: nat, j: nat)
    requires j < |now| == |v.items|
  {
    && now[j].isDir == v.items[j].isDir
    && if Pending(v, isDir, i, j) then now[j] == v.items[j] else GivenName(log, now[j].name)
  }

  /** All entries are awaited at first, and the directories when the files are done. */
  lemma {:induction false} AwaitsAll(t: Tree, log: seq<Rename>, v: Visit)
    ensures ListedAt(t, v.path) == Some(v.items) ==> Awaits(t, log, v, false, 0)
    ensures Awaits(t, log, v, false, |v.items|) ==> Awaits(t, log, v, true, 0)
  {
    if Awaits(t, log, v, false, |v.items|) {
      var now := ListedAt(t, v.path).value;
      forall j | 0 <= j < |now| ensures AwaitsAt(now, log, v, true, 0, j) {
        assert AwaitsAt(now, log, v, false, |v.items|, j);
      }
    }
  }

  lemma {:induction false} AwaitedEntry(t: Tree, log: seq<Rename>, v: Visit, isDir: bool, m: nat)
    requires m < |v.items| && v.items[m].isDir == isDir && Awaits(t, log, v, isDir, m)
    ensures HasEntry(t, v.path, v.items[m].name) && ListedAt(t, v.path).value[m] == v.items[m]
  {
    var es := At(t, v.path).value.entries;
    assert AwaitsAt(Listing(es), log, v, isDir, m, m);
    assert es[m].name == v.items[m].name;
  }

  /** Every name in the directory was given or waits ... */
  lemma {:induction false} AwaitedName(t: Tree, log: seq<Rename>, v: Visit, isDir: bool, i: nat, name: string)
    requires Awaits(t, log, v, isDir, i) && IndexOf(At(t, v.path).value.entries, name) >= 0
    ensures GivenName(log, name) || ItemWaits(v, isDir, i, name)
  {
    var es := At(t, v.path).value.entries;
    var m := IndexOf(es, name);
    assert AwaitsAt(Listing(es), log, v, isDir, i, m);
    assert Listing(es)[m].name == name;
  }

  /** ... and every name that waits is in the directory. */
  lemma {:induction false} WaitingIsThere(t: Tree, log: seq<Rename>, v: Visit, isDir: bool, i: nat, name: string)
    requires Awaits(t, log, v, isDir, i)
    ensures ItemWaits(v, isDir, i, name) ==> IndexOf(At(t, v.path).value.entries, name) >= 0
  {
    if ItemWaits(v, isDir, i, name) {
      var m :| 0 <= m && Pending(v, isDir, i, m) && v.items[m].name == name;
      var es := At(t, v.path).value.entries;
      assert AwaitsAt(Listing(es), log, v, isDir, i, m);
      assert es[m].name == name;
    }
  }

  lemma {:induction false} AwaitsSkip(t: Tree, log: seq<Rename>, v: Visit, isDir: bool, i: nat)
    requires Awaits(t, log, v, isDir, i) && i < |v.items| && v.items[i].isDir != isDir
    ensures Awaits(t, log, v, isDir, i + 1)
  {
    var now := ListedAt(t, v.path).value;
    var next := i + 1;
    forall j | 0 <= j < |now| ensures AwaitsAt(now, log, v, isDir, next, j) {
      assert AwaitsAt(now, log, v, isDir, i, j);
      assert Pending(v, isDir, next, j) <==> Pending(v, isDir, i, j);
    }
  }

  lemma {:induction false} AwaitsNext(t: Tree, log: seq<Rename>, v: Visit, isDir: bool, i: nat, r: Rename)
    requires WellFormed(t) && Awaits(t, log, v, isDir, i) && i < |v.items| && v.items[i].isDir == isDir
    requires r.path == v.path && r.source == v.items[i].name && CanRename(t, r)
    ensures Awaits(Apply(t, r), log + [r], v, isDir, i + 1) && SameOutside(t, Apply(t, r), v.path)
  {
    var log' := log + [r];
    AwaitedEntry(t, log, v, isDir, i);
    RenameHere(t, r, i);
    OutsideNext(t, r);
    var was, now := ListedAt(t, v.path).value, ListedAt(Apply(t, r), v.path).value;
    var next := i + 1;
    assert log'[|log|].target == r.target;
    forall j | 0 <= j < |now| ensures AwaitsAt(now, log', v, isDir, next, j) {
      assert AwaitsAt(was, log, v, isDir, i, j);
      if j != i && !Pending(v, isDir, i, j) {
        var k :| 0 <= k < |log| && log[k].target == was[j].name;
        assert log'[k].target == now[j].name;
      }
    }
  }

  /** Two trees list the same in every directory that is not at or below a path. */
  ghost predicate SameOutside(t: Tree, t': Tree, path: Path) {
    forall q {:trigger ListedAt(t', q)} :: !(path <= q) ==> ListedAt(t', q) == ListedAt(t, q)
  }

  lemma {:induction false} OutsideNext(t: Tree, r: Rename)
    requires CanRename(t, r)
    ensures SameOutside(t, Apply(t, r), r.path)
  {
    forall q | !(r.path <= q) ensures ListedAt(Apply(t, r), q) == ListedAt(t, q) {
      RenameElsewhere(t, r, q);
    }
  }

  lemma {:induction false} OutsideComposes(t0: Tree, t: Tree, t': Tree, path: Path)
    requires SameOutside(t0, t, path) && SameOutside(t, t', path)
    ensures SameOutside(t0, t', path)
  {
    forall q | !(path <= q) ensures ListedAt(t', q) == ListedAt(t0, q) {
      assert ListedAt(t, q) == ListedAt(t0, q);
    }
  }

  lemma {:induction false} AtEntry(t: Tree, path: Path, name: string)
    requires ListedAt(t, path).Some?
    ensures At(t, path + [name]).Some? <==> IndexOf(At(t, path).value.entries, name) >= 0
    decreases |path|
  {
    var p := path + [name];
    if path == [] {
      assert p[1..] == [];
    } else {
      var i := IndexOf(t.entries, path[0]);
      assert p[1..] == path[1..] + [name];
      AtEntry(t.entries[i].tree, path[1..], name);
    }
  }

  ghost predicate HasEntry(t: Tree, path: Path, name: string) {
    At(t, path).Some? && At(t, path).value.Dir? && IndexOf(At(t, path).value.entries, name) >= 0
  }

  lemma {:induction false} EntryIsThere(t: Tree, path: Path, source: string, target: string)
    requires HasEntry(t, path, source) && At(t, path + [target]).Some?
    ensures HasEntry(t, path, target)
  {
    AtEntry(t, path, target);
  }

  /** An entry can be renamed to a name that is not there. */
  lemma {:induction false} EntryCanRename(t: Tree, r: Rename)
    requires HasEntry(t, r.path, r.source) && At(t, r.path + [r.target]).None?
    ensures CanRename(t, r)
  {
    AtEntry(t, r.path, r.target);
  }

  lemma {:induction false} RunExtends(original: Tree, log: seq<Rename>, t: Tree, r: Rename)
    requires WellFormed(t) && t.Dir? && ApplyAll(original, log) == Some(t) && CanRename(t, r)
    ensures WellFormed(Apply(t, r)) && Apply(t, r).Dir? && ApplyAll(original, log + [r]) == Some(Apply(t, r))
  {
    RenameIsReversible(t, r);
    assert (log + [r])[..|log|] == log;
  }

  lemma {:induction false} RecordExtends(log: seq<Rename>, done: seq<Job>, numbers: seq<nat>, naming: Naming, job: Job, n: nat)
    requires Recorded(log, done, numbers, naming)
    ensures Recorded(log + [Rename(job.path, job.name, naming(job, n))], done + [job], numbers + [n], naming)
    ensures Sequential(done, numbers) && n == Count(done, job.isDir) + 1 ==> Sequential(done + [job], numbers + [n])
  {
    var log', done', numbers' := log + [Rename(job.path, job.name, naming(job, n))], done + [job], numbers + [n];
    forall i | 0 <= i < |log'| ensures LoggedAt(log', done', numbers', naming, i) {
      assert i < |log| ==> LoggedAt(log, done, numbers, naming, i);
    }
    if Sequential(done, numbers) && n == Count(done, job.isDir) + 1 {
      forall i | 0 <= i < |done'| ensures InTurn(done', numbers', i) {
        assert done'[..i] == done[..i];
        assert i < |done| ==> InTurn(done, numbers, i);
      }
    }
  }

  lemma {:induction false} DifferExtends(ns: Numbering, done: seq<Job>, numbers: seq<nat>, random: bool, job: Job, n: nat)
    requires Numbered(ns, job.isDir, done, numbers, random) && n !in ns.used && NumbersDiffer(done, numbers)
    ensures NumbersDiffer(done + [job], numbers + [n])
  {
    var done', numbers' := done + [job], numbers + [n];
    forall i, j | 0 <= i < j < |done'| ensures Differ(done', numbers', i, j) {
      if j < |done| {
        assert Differ(done, numbers, i, j);
      } else {
        assert Given(ns, job.isDir, done, numbers, i);
      }
    }
  }
}
