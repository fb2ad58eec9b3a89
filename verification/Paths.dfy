/**
 Absolute path strings as the watch manager stores them, and the file tree they name.
 A path is a sequence of names; the tree is one directory entry per inode, so that a
 rename changes a single entry and moves everything below it.
 */
module Paths {
  import opened Sequences

  predicate ValidName(name: string) {
    name != "" && name != "." && name != ".." && '/' !in name
  }

  ghost predicate ValidPath(p: seq<string>) {
    forall i :: 0 <= i < |p| ==> ValidName(p[i])
  }

  /** The normalized absolute path string. */
  function PathStr(p: seq<string>): string {
    "/" + Join(p, '/')
  }

  /** `os.path.join` */
  function PathJoin(a: string, b: string): string {
    if b != "" && b[0] == '/' then b
    else if a == "" || a[|a| - 1] == '/' then a + b
    else a + "/" + b
  }

  /** `os.path.normpath` */
  function NormPath(path: string): string {
    if path == "" then "."
    else
      var slashes := if "//" <= path && !("///" <= path) then 2 else if path[0] == '/' then 1 else 0;
      var r := Repeat('/', slashes) + Join(NormParts(Split(path, '/'), slashes > 0, []), '/');
      if r == "" then "." else r
  }

  function NormParts(parts: seq<string>, rooted: bool, done: seq<string>): seq<string> {
    if parts == [] then done
    else
      var part := parts[0];
      NormParts(parts[1..], rooted,
                if part == "" || part == "." then done
                else if part != ".." || (!rooted && done == []) || (done != [] && done[|done| - 1] == "..")
                          then done + [part]
                else if done != [] then done[..|done| - 1]
                else done)
  }

  lemma SplitPathStr(p: seq<string>)
    requires ValidPath(p) && p != []
    ensures Split(PathStr(p), '/') == [""] + p
  {
    SplitFirst("", Join(p, '/'), '/');
    JoinSplit(p, '/');
    assert PathStr(p) == "" + ['/'] + Join(p, '/');
  }

  lemma PathStrInjective(p: seq<string>, q: seq<string>)
    requires ValidPath(p) && ValidPath(q) && PathStr(p) == PathStr(q)
    ensures p == q
  {
    if p != [] && q != [] {
      SplitPathStr(p);
      SplitPathStr(q);
      assert ([""] + p)[1..] == p && ([""] + q)[1..] == q;
    } else {
      JoinNonEmpty(p);
      JoinNonEmpty(q);
    }
  }

  lemma JoinNonEmpty(p: seq<string>)
    requires ValidPath(p)
    ensures p == [] <==> Join(p, '/') == ""
    ensures p != [] ==> Join(p, '/')[0] != '/' && p[0] <= Join(p, '/')
  {
  }

  lemma {:induction false} NormPartsKeep(p: seq<string>, done: seq<string>)
    requires ValidPath(p)
    ensures NormParts(p, true, done) == done + p
  {
    if p != [] {
      NormPartsKeep(p[1..], done + [p[0]]);
      assert done + [p[0]] + p[1..] == done + p;
    }
  }

  /** Normalizing a stored path does nothing. */
  lemma NormPathStored(p: seq<string>)
    requires ValidPath(p)
    ensures NormPath(PathStr(p)) == PathStr(p)
  {
    JoinNonEmpty(p);
    if p == [] {
      assert PathStr(p) == "" + ['/'] + "";
      SplitFirst("", "", '/');
      assert Split("", '/') == [""];
      assert NormParts(["", ""], true, []) == [] by {
        assert ["", ""][1..] == [""];
        assert [""][1..] == [];
      }
    } else {
      SplitPathStr(p);
      assert ([""] + p)[1..] == p;
      NormPartsKeep(p, []);
      assert PathStr(p)[1] != '/';
      assert Repeat('/', 1) == "/";
      assert NormParts(Split(PathStr(p), '/'), true, []) == NormParts(p, true, []) == p;
    }
  }

  lemma {:induction false} NormPartsConcat(a: seq<string>, b: seq<string>, done: seq<string>)
    ensures NormParts(a + b, true, done) == NormParts(b, true, NormParts(a, true, done))
    decreases |a|
  {
    if a == [] {
      assert a + b == b;
    } else {
      var next := NormParts([a[0]], true, done);
      assert a + b == [a[0]] + (a[1..] + b) && a == [a[0]] + a[1..];
      NormPartsOne(a[0], a[1..] + b, done);
      NormPartsOne(a[0], a[1..], done);
      NormPartsConcat(a[1..], b, next);
    }
  }

  lemma NormPartsOne(part: string, rest: seq<string>, done: seq<string>)
    ensures NormParts([part] + rest, true, done) == NormParts(rest, true, NormParts([part], true, done))
  {
    assert [part][1..] == [] && ([part] + rest)[1..] == rest;
  }

  lemma EndParts(end: string, p: seq<string>)
    requires p != [] && end in {"", ".", ".."} && p[|p| - 1] != ".."
    ensures NormParts([end], true, p) == if end == ".." then p[..|p| - 1] else p
  {
    assert [end][1..] == [];
  }

  /** Of a path that is not stored: a slash or a dot at its end is dropped, and two dots take the last name along. */
  lemma NormPathResolves(p: seq<string>, end: string)
    requires ValidPath(p) && p != [] && end in {"", ".", ".."}
    ensures NormPath(PathStr(p) + "/" + end) == PathStr(if end == ".." then p[..|p| - 1] else p)
  {
    var path, q := PathStr(p) + "/" + end, if end == ".." then p[..|p| - 1] else p;
    JoinNonEmpty(p);
    SplitPathStr(p);
    SplitFree(end, '/');
    assert '/' !in end;
    SplitLast(PathStr(p), end, '/');
    assert path == PathStr(p) + ['/'] + end;
    assert Split(path, '/') == [""] + (p + [end]);
    NormPartsConcat([""], p + [end], []);
    assert NormParts([""], true, []) == [] by {
      assert [""][1..] == [];
    }
    NormPartsConcat(p, [end], []);
    NormPartsKeep(p, []);
    assert [] + p == p;
    EndParts(end, p);
    assert path[0] == '/' && path[1] == PathStr(p)[1] != '/';
    assert Repeat('/', 1) == "/";
  }

  lemma ChildJoin(p: seq<string>, name: string)
    requires ValidPath(p) && ValidName(name)
    ensures PathJoin(PathStr(p), name) == PathStr(p + [name])
  {
    if p == [] {
      assert p + [name] == [name];
    } else {
      JoinConcat(p, [name], '/');
      JoinTail(p);
      assert Join([name], '/') == name;
    }
  }

  lemma ChildPath(p: seq<string>, name: string)
    requires ValidPath(p) && ValidName(name)
    ensures PathJoin(PathStr(p), name) == PathStr(p + [name])
    ensures NormPath(PathJoin(PathStr(p), name)) == PathStr(p + [name])
    ensures ValidPath(p + [name])
  {
    ChildJoin(p, name);
    NormPathStored(p + [name]);
  }

  lemma {:induction false} JoinTail(p: seq<string>)
    requires ValidPath(p) && p != []
    ensures Join(p, '/') != "" && Join(p, '/')[|Join(p, '/')| - 1] != '/'
  {
    if |p| > 1 {
      JoinTail(p[1..]);
    }
  }

  lemma SplitTail(a: seq<string>, t: string, b: seq<string>)
    requires ValidPath(a) && ValidPath(b)
    requires b != [] ==> Split(PathStr(b), '/') == [""] + a + Split(t, '/')
    ensures b != [] ==> a < b
  {
    if b != [] {
      SplitPathStr(b);
      assert b == ([""] + b)[1..] == ([""] + a + Split(t, '/'))[1..] == a + Split(t, '/');
    }
  }

  /** The separator added before the prefix test makes it a test on whole names: no look-alikes. */
  lemma BelowExactly(a: seq<string>, b: seq<string>)
    requires ValidPath(a) && ValidPath(b) && a != []
    ensures PathStr(a) + "/" <= PathStr(b) <==> a < b
  {
    if a < b {
      assert b == a + b[|a|..];
      JoinConcat(a, b[|a|..], '/');
    } else if PathStr(a) + "/" <= PathStr(b) {
      var t := PathStr(b)[|PathStr(a)| + 1..];
      assert PathStr(b) == PathStr(a) + ['/'] + t;
      SplitConcat(PathStr(a), t, '/');
      SplitPathStr(a);
      JoinNonEmpty(b);
      SplitTail(a, t, b);
    }
  }

  /** Cutting the source prefix and joining the destination rebases the path. */
  lemma RebasedPath(a: seq<string>, b: seq<string>, d: seq<string>)
    requires ValidPath(a) && ValidPath(b) && ValidPath(d) && a != [] && a < b
    ensures |PathStr(b)| > |PathStr(a)|
    ensures PathJoin(PathStr(d), PathStr(b)[|PathStr(a)| + 1..]) == PathStr(d + b[|a|..])
  {
    var rest := b[|a|..];
    assert b == a + rest;
    JoinConcat(a, rest, '/');
    assert PathStr(b) == PathStr(a) + "/" + Join(rest, '/');
    assert PathStr(b)[|PathStr(a)| + 1..] == Join(rest, '/');
    JoinNonEmpty(rest);
    JoinNonEmpty(d);
    if d == [] {
      assert d + rest == rest;
    } else {
      JoinTail(d);
      JoinConcat(d, rest, '/');
    }
  }
}

/** What the watch manager keeps for a descriptor. */
module Watches {
  datatype Watch = Watch(path: string, autoAdd: bool, exclude: string -> bool)
}

/** The file tree: every inode but the root has one directory entry. */
module FileTree {
  import opened Paths

  type Inode = nat
  datatype Entry = Entry(parent: Inode, name: string)
  datatype Tree = Tree(root: Inode, entry: map<Inode, Entry>)

  /** Inode n sits at path p. */
  ghost predicate At(t: Tree, n: Inode, p: seq<string>)
    decreases |p|
  {
    if p == [] then n == t.root
    else n in t.entry && t.entry[n].name == p[|p| - 1] && At(t, t.entry[n].parent, p[..|p| - 1])
  }

  ghost predicate Placed(t: Tree, n: Inode) {
    exists p :: At(t, n, p)
  }

  ghost function PathOf(t: Tree, n: Inode): (p: seq<string>)
    requires Placed(t, n)
    ensures At(t, n, p)
  {
    var p :| At(t, n, p);
    p
  }

  ghost predicate WellFormed(t: Tree) {
    && t.root !in t.entry
    && (forall n :: n in t.entry ==> ValidName(t.entry[n].name) && Placed(t, n))
    && (forall n, m :: n in t.entry && m in t.entry && t.entry[n] == t.entry[m] ==> n == m)
  }

  lemma {:induction false} AtUnique(t: Tree, n: Inode, p: seq<string>, q: seq<string>)
    requires WellFormed(t) && At(t, n, p) && At(t, n, q)
    ensures p == q
    decreases |p|
  {
    if p != [] && q != [] {
      AtUnique(t, t.entry[n].parent, p[..|p| - 1], q[..|q| - 1]);
      assert p == p[..|p| - 1] + [p[|p| - 1]] && q == q[..|q| - 1] + [q[|q| - 1]];
    }
  }

  lemma {:induction false} AtInjective(t: Tree, n: Inode, m: Inode, p: seq<string>)
    requires WellFormed(t) && At(t, n, p) && At(t, m, p)
    ensures n == m
    decreases |p|
  {
    if p != [] {
      AtInjective(t, t.entry[n].parent, t.entry[m].parent, p[..|p| - 1]);
    }
  }

  lemma {:induction false} AtValid(t: Tree, n: Inode, p: seq<string>)
    requires WellFormed(t) && At(t, n, p)
    ensures ValidPath(p)
    decreases |p|
  {
    if p != [] {
      AtValid(t, t.entry[n].parent, p[..|p| - 1]);
    }
  }

  /** m is n or lies below n. */
  ghost predicate Within(t: Tree, n: Inode, m: Inode) {
    exists p, q :: At(t, n, p) && At(t, m, q) && p <= q
  }

  lemma AtChild(t: Tree, n: Inode, p: seq<string>, name: string)
    requires n in t.entry && t.entry[n].name == name && At(t, t.entry[n].parent, p)
    ensures At(t, n, p + [name])
  {
    assert (p + [name])[..|p|] == p;
  }

  lemma NotWithin(t: Tree, n: Inode, m: Inode, p: seq<string>, q: seq<string>)
    requires WellFormed(t) && At(t, n, p) && At(t, m, q) && !(p <= q)
    ensures !Within(t, n, m)
  {
    if Within(t, n, m) {
      var p', q' :| At(t, n, p') && At(t, m, q') && p' <= q';
      AtUnique(t, n, p, p');
      AtUnique(t, m, q, q');
    }
  }

  function Rename(t: Tree, n: Inode, parent: Inode, name: string): Tree {
    t.(entry := t.entry[n := Entry(parent, name)])
  }

  /** The kernel allows it: n is not the root, the target is free, and does not lie inside n. */
  ghost predicate CanRename(t: Tree, n: Inode, parent: Inode, name: string) {
    && n in t.entry
    && Placed(t, parent)
    && ValidName(name)
    && Entry(parent, name) !in t.entry.Values
    && !Within(t, n, parent)
  }

  ghost function MovedPath(src: seq<string>, dst: seq<string>, p: seq<string>): seq<string> {
    if src <= p then dst + p[|src|..] else p
  }

  lemma {:induction false} RenameOutside(t: Tree, n: Inode, parent: Inode, name: string, src: seq<string>, m: Inode,
                                         p: seq<string>)
    requires WellFormed(t) && CanRename(t, n, parent, name)
    requires At(t, n, src) && At(t, m, p) && !(src <= p)
    ensures At(Rename(t, n, parent, name), m, p)
    decreases |p|
  {
    if p != [] {
      if m == n {
        AtUnique(t, n, src, p);
      } else {
        assert p[..|p| - 1] <= p;
        RenameOutside(t, n, parent, name, src, t.entry[m].parent, p[..|p| - 1]);
      }
    }
  }

  /** A rename takes the whole subtree along, and nothing else. */
  lemma {:induction false} RenameMoves(t: Tree, n: Inode, parent: Inode, name: string, src: seq<string>,
                                       par: seq<string>, m: Inode, p: seq<string>)
    requires WellFormed(t) && CanRename(t, n, parent, name)
    requires At(t, n, src) && At(t, parent, par) && At(t, m, p)
    ensures At(Rename(t, n, parent, name), m, MovedPath(src, par + [name], p))
    decreases |p|
  {
    if !(src <= p) {
      RenameOutside(t, n, parent, name, src, m, p);
    } else if src == p {
      AtInjective(t, n, m, p);
      RenameTop(t, n, parent, name, src, par);
      assert par + [name] + p[|src|..] == par + [name];
    } else {
      if m == n {
        AtUnique(t, n, src, p);
      }
      RenameMoves(t, n, parent, name, src, par, t.entry[m].parent, p[..|p| - 1]);
      RenameBelow(t, n, Entry(parent, name), src, par + [name], m, p);
    }
  }

  lemma RenameTop(t: Tree, n: Inode, parent: Inode, name: string, src: seq<string>, par: seq<string>)
    requires WellFormed(t) && CanRename(t, n, parent, name)
    requires At(t, n, src) && At(t, parent, par)
    ensures At(Rename(t, n, parent, name), n, par + [name])
  {
    assert !(src <= par);
    RenameOutside(t, n, parent, name, src, parent, par);
    var dst := par + [name];
    assert dst[..|dst| - 1] == par;
  }

  lemma RenameBelow(t: Tree, n: Inode, e: Entry, src: seq<string>, dst: seq<string>, m: Inode, p: seq<string>)
    requires src < p && m != n && At(t, m, p)
    requires At(Rename(t, n, e.parent, e.name), t.entry[m].parent, MovedPath(src, dst, p[..|p| - 1]))
    ensures At(Rename(t, n, e.parent, e.name), m, MovedPath(src, dst, p))
  {
    var moved := MovedPath(src, dst, p);
    assert moved == dst + p[|src|..];
    assert moved[..|moved| - 1] == dst + p[..|p| - 1][|src|..];
  }

  lemma RenameWellFormed(t: Tree, n: Inode, parent: Inode, name: string)
    requires WellFormed(t) && CanRename(t, n, parent, name)
    ensures WellFormed(Rename(t, n, parent, name))
  {
    var t' := Rename(t, n, parent, name);
    var src, par := PathOf(t, n), PathOf(t, parent);
    forall m | m in t'.entry
      ensures Placed(t', m)
    {
      RenameMoves(t, n, parent, name, src, par, m, PathOf(t, m));
    }
  }

  function Create(t: Tree, n: Inode, parent: Inode, name: string): Tree {
    t.(entry := t.entry[n := Entry(parent, name)])
  }

  ghost predicate CanCreate(t: Tree, n: Inode, parent: Inode, name: string) {
    n != t.root && n !in t.entry && Placed(t, parent) && ValidName(name) && Entry(parent, name) !in t.entry.Values
  }

  function Delete(t: Tree, n: Inode): Tree {
    t.(entry := t.entry - {n})
  }

  /** Only a file or an empty directory can go. */
  predicate CanDelete(t: Tree, n: Inode) {
    n in t.entry && forall m :: m in t.entry ==> t.entry[m].parent != n
  }

  lemma {:induction false} CreateKeeps(t: Tree, n: Inode, parent: Inode, name: string, m: Inode, p: seq<string>)
    requires WellFormed(t) && CanCreate(t, n, parent, name) && At(t, m, p)
    ensures At(Create(t, n, parent, name), m, p)
    decreases |p|
  {
    if p != [] {
      CreateKeeps(t, n, parent, name, t.entry[m].parent, p[..|p| - 1]);
    }
  }

  lemma CreateWellFormed(t: Tree, n: Inode, parent: Inode, name: string)
    requires WellFormed(t) && CanCreate(t, n, parent, name)
    ensures WellFormed(Create(t, n, parent, name))
  {
    var t' := Create(t, n, parent, name);
    var par := PathOf(t, parent);
    CreateKeeps(t, n, parent, name, parent, par);
    assert (par + [name])[..|par + [name]| - 1] == par;
    assert At(t', n, par + [name]);
    forall m | m in t.entry
      ensures Placed(t', m)
    {
      CreateKeeps(t, n, parent, name, m, PathOf(t, m));
    }
  }

  lemma {:induction false} DeleteKeeps(t: Tree, n: Inode, m: Inode, p: seq<string>)
    requires WellFormed(t) && CanDelete(t, n) && At(t, m, p) && m != n
    ensures At(Delete(t, n), m, p)
    decreases |p|
  {
    if p != [] {
      DeleteKeeps(t, n, t.entry[m].parent, p[..|p| - 1]);
    }
  }

  lemma DeleteWellFormed(t: Tree, n: Inode)
    requires WellFormed(t) && CanDelete(t, n)
    ensures WellFormed(Delete(t, n))
  {
    forall m | m in t.entry && m != n
      ensures Placed(Delete(t, n), m)
    {
      DeleteKeeps(t, n, m, PathOf(t, m));
    }
  }
}
