/**
 Whole runs of file system operations, of the notifier handling their events when it comes to them,
 and of its clean-ups: the table against the file tree.
 */
module WatchTableRuns {
  import opened Sequences
  import opened Paths
  import opened FileTree
  import opened Watches
  import opened WatchTable
  import opened Coalescing

  /** Which inode the kernel attached each descriptor to; inotify gives one descriptor per inode. */
  type Attachment = map<Wd, Inode>

  ghost predicate OnePerInode(at: Attachment) {
    forall d, e :: d in at && e in at && at[d] == at[e] ==> d == e
  }

  /** The string is the path of inode n. */
  ghost predicate Named(tree: Tree, n: Inode, path: string) {
    Placed(tree, n) && path == PathStr(PathOf(tree, n))
  }

  lemma NamedBy(tree: Tree, n: Inode, p: seq<string>)
    requires WellFormed(tree) && At(tree, n, p)
    ensures Placed(tree, n) && PathOf(tree, n) == p && Named(tree, n, PathStr(p)) && ValidPath(p)
  {
    AtUnique(tree, n, p, PathOf(tree, n));
    AtValid(tree, n, p);
  }

  /** The watches are those of the kernel, and every one stores the true path of its inode. */
  ghost predicate Agrees(tree: Tree, t: Table, at: Attachment) {
    && WellFormed(tree)
    && OnePerInode(at)
    && t.watches.Keys == at.Keys
    && forall d :: d in at ==> Named(tree, at[d], t.watches[d].path)
  }

  ghost function WatchOf(at: Attachment, n: Inode): (r: Option<Wd>)
    ensures r.Some? ==> r.value in at && at[r.value] == n
    ensures r.None? ==> forall d :: d in at ==> at[d] != n
  {
    if exists d :: d in at && at[d] == n then
      var d :| d in at && at[d] == n;
      Some(d)
    else None
  }

  // ---- operations and the events they send ----

  datatype Op =
    | Move(n: Inode, parent: Inode, name: string, cookie: nat)
    | New(n: Inode, parent: Inode, name: string, isDir: bool)
    | Gone(n: Inode)

  ghost predicate Possible(tree: Tree, at: Attachment, op: Op) {
    match op
    case Move(n, parent, name, _) => CanRename(tree, n, parent, name)
    case New(n, parent, name, _) => CanCreate(tree, n, parent, name) && n !in at.Values
    case Gone(n) => CanDelete(tree, n)
  }

  function After(tree: Tree, op: Op): Tree {
    match op
    case Move(n, parent, name, _) => Rename(tree, n, parent, name)
    case New(n, parent, name, _) => Create(tree, n, parent, name)
    case Gone(n) => Delete(tree, n)
  }

  function DirsAfter(dirs: set<Inode>, op: Op): set<Inode> {
    match op
    case Move(_, _, _, _) => dirs
    case New(n, _, _, isDir) => if isDir then dirs + {n} else dirs - {n}
    case Gone(n) => dirs - {n}
  }

  /** The kernel drops the descriptor of a deleted inode. */
  ghost function AtAfter(at: Attachment, op: Op): Attachment {
    if op.Gone? && WatchOf(at, op.n).Some? then at - {WatchOf(at, op.n).value} else at
  }

  function Sent(wd: Option<Wd>, event: Wd -> Event): seq<Event> {
    if wd.Some? then [event(wd.value)] else []
  }

  ghost function FromEvent(tree: Tree, at: Attachment, op: Op): seq<Event>
    requires op.Move? && op.n in tree.entry
  {
    var was := tree.entry[op.n];
    Sent(WatchOf(at, was.parent), (d: Wd) => MovedFrom(d, op.cookie, was.name))
  }

  ghost function ToEvent(dirs: set<Inode>, at: Attachment, op: Op): seq<Event>
    requires op.Move?
  {
    Sent(WatchOf(at, op.parent), (d: Wd) => MovedTo(d, op.cookie, op.name, op.n in dirs))
  }

  ghost function SelfEvent(at: Attachment, op: Op): seq<Event>
    requires op.Move?
  {
    Sent(WatchOf(at, op.n), (d: Wd) => MoveSelf(d))
  }

  /** Each event goes only to a watched inode; a rename sends MOVED_FROM, MOVED_TO, MOVE_SELF in this order. */
  ghost function Emitted(tree: Tree, dirs: set<Inode>, at: Attachment, op: Op): seq<Event>
    requires Possible(tree, at, op)
  {
    match op
    case Move(_, _, _, _) => FromEvent(tree, at, op) + ToEvent(dirs, at, op) + SelfEvent(at, op)
    case New(_, parent, name, isDir) => Sent(WatchOf(at, parent), (d: Wd) => Created(d, name, isDir))
    case Gone(n) => Sent(WatchOf(at, n), (d: Wd) => Ignored(d))
  }

  ghost predicate WatchWithin(tree: Tree, at: Attachment, n: Inode) {
    exists d :: d in at && Within(tree, n, at[d])
  }

  /** If anything watched moves, the moved inode and both its parents are watched. */
  ghost predicate Tracked(tree: Tree, at: Attachment, op: Op)
    requires Possible(tree, at, op)
  {
    op.Move? && WatchWithin(tree, at, op.n) ==>
      && WatchOf(at, op.n).Some?
      && WatchOf(at, tree.entry[op.n].parent).Some?
      && WatchOf(at, op.parent).Some?
  }

  // ---- what is still queued ----

  function Dated<K>(records: map<K, Record>): map<K, Record> {
    map k | k in records :: Record(records[k].path, 0)
  }

  /** The table but for the dates of its records. */
  function Undated(t: Table): Table {
    t.(cookies := Dated(t.cookies), moves := Dated(t.moves))
  }

  /** Where the queue will take the paths in the table, watches added on the way aside. */
  function Drain(t: Table, q: seq<Event>): Table
    decreases |q|
  {
    if |q| == 0 then t else Drain(Handle(t, q[0], 0, []), q[1..])
  }

  lemma {:induction false} DrainConcat(t: Table, a: seq<Event>, b: seq<Event>)
    ensures Drain(t, a + b) == Drain(Drain(t, a), b)
    decreases |a|
  {
    if a == [] {
      assert a + b == b;
    } else {
      DrainConcat(Handle(t, a[0], 0, []), a[1..], b);
      assert (a + b)[1..] == a[1..] + b;
    }
  }

  lemma DrainOne(t: Table, e: Event)
    ensures Drain(t, [e]) == Handle(t, e, 0, [])
  {
    assert [e][1..] == [];
  }

  lemma {:induction false} DrainCreates(t: Table, q: seq<Event>)
    requires forall e :: e in q ==> e.Created? || e.Other?
    ensures Drain(t, q) == t
    decreases |q|
  {
    if q != [] {
      assert q[0] in q;
      assert Handle(t, q[0], 0, []) == t;
      DrainCreates(t, q[1..]);
    }
  }

  lemma DatedMore<K>(records: map<K, Record>, k: K, path: string, now: int)
    ensures Dated(records[k := Record(path, now)]) == Dated(records)[k := Record(path, 0)]
  {
  }

  lemma UndatedFrom(t: Table, wd: Wd, cookie: nat, name: string, now: int)
    requires wd in t.watches
    ensures Undated(OnMovedFrom(t, wd, cookie, name, now)) == OnMovedFrom(Undated(t), wd, cookie, name, 0)
  {
    DatedMore(t.cookies, cookie, NormPath(PathJoin(t.watches[wd].path, name)), now);
  }

  lemma UndatedTo(t: Table, wd: Wd, cookie: nat, name: string, now: int)
    requires wd in t.watches && cookie in t.cookies
    ensures Undated(OnMovedTo(t, wd, cookie, name, now)) == OnMovedTo(Undated(t), wd, cookie, name, 0)
  {
    DatedMore(t.moves, t.cookies[cookie].path, NormPath(PathJoin(t.watches[wd].path, name)), now);
  }

  lemma UndatedSelf(t: Table, wd: Wd)
    requires wd in t.watches
    ensures Undated(OnMoveSelf(t, wd)) == OnMoveSelf(Undated(t), wd)
  {
  }

  lemma UndatedHandle(t: Table, e: Event, now: int, walk: seq<Found>)
    ensures Undated(Handle(t, e, now, walk)) == Handle(Undated(t), e, 0, walk)
    ensures e.wd in t.watches ==> AddingPath(Undated(t), e) == AddingPath(t, e)
  {
    if e.wd in t.watches {
      match e {
        case MovedFrom(wd, cookie, name) => UndatedFrom(t, wd, cookie, name, now);
        case MovedTo(wd, cookie, name, _) =>
          if cookie in t.cookies {
            UndatedTo(t, wd, cookie, name, now);
          }
        case MoveSelf(wd) => UndatedSelf(t, wd);
        case _ =>
      }
    }
  }

  lemma {:induction false} DrainKeys(t: Table, q: seq<Event>, d: Wd)
    ensures d in Drain(t, q).watches <==> d in t.watches && Ignored(d) !in q
    decreases |q|
  {
    if q != [] {
      DrainKeys(Handle(t, q[0], 0, []), q[1..], d);
      assert q == [q[0]] + q[1..];
      assert d in Handle(t, q[0], 0, []).watches <==> d in t.watches && q[0] != Ignored(d);
    }
  }

  // ---- the three events of a move ----

  lemma WatchPath(tree: Tree, t: Table, at: Attachment, d: Wd, p: seq<string>)
    requires Agrees(tree, t, at) && d in t.watches && At(tree, at[d], p)
    ensures t.watches[d].path == PathStr(p) && ValidPath(p)
  {
    AtUnique(tree, at[d], p, PathOf(tree, at[d]));
    AtValid(tree, at[d], p);
  }

  /** After MOVED_FROM: the source path is on record, if its parent is watched. */
  lemma FromRecorded(tree: Tree, t: Table, at: Attachment, op: Op)
    requires Agrees(tree, t, at) && op.Move? && Possible(tree, at, op)
    ensures var t' := Drain(t, FromEvent(tree, at, op));
            && t'.watches == t.watches && t'.moves == t.moves
            && if WatchOf(at, tree.entry[op.n].parent).Some?
               then op.cookie in t'.cookies && t'.cookies[op.cookie].path == PathStr(PathOf(tree, op.n))
               else t' == t
  {
    var was := tree.entry[op.n];
    var from := WatchOf(at, was.parent);
    if from.Some? {
      DrainOne(t, FromEvent(tree, at, op)[0]);
      var src := PathOf(tree, op.n);
      var up := src[..|src| - 1];
      assert src == up + [was.name];
      WatchPath(tree, t, at, from.value, up);
      ChildPath(up, was.name);
    }
  }

  /** After MOVED_TO: the move is on record, if the new parent is watched and the source path is known. */
  lemma ToRecorded(tree: Tree, dirs: set<Inode>, t: Table, at: Attachment, op: Op)
    requires Agrees(tree, t, at) && op.Move? && Possible(tree, at, op)
    ensures var t' := Drain(t, ToEvent(dirs, at, op));
            && t'.watches == t.watches
            && if WatchOf(at, op.parent).Some? && op.cookie in t.cookies
               then
                 var dst := PathStr(PathOf(tree, op.parent) + [op.name]);
                 t'.moves == t.moves[t.cookies[op.cookie].path := Record(dst, 0)]
               else t'.moves == t.moves
  {
    var to := WatchOf(at, op.parent);
    if to.Some? {
      DrainOne(t, ToEvent(dirs, at, op)[0]);
      var par := PathOf(tree, op.parent);
      WatchPath(tree, t, at, to.value, par);
      ChildPath(par, op.name);
    }
  }

  /** The records pile up and nothing in the table moves until MOVE_SELF, if there is one. */
  lemma MoveDelivered(tree: Tree, dirs: set<Inode>, t: Table, at: Attachment, op: Op) returns (t': Table)
    requires Agrees(tree, t, at) && op.Move? && Possible(tree, at, op)
    requires WatchOf(at, tree.entry[op.n].parent).None? ==> op.cookie !in t.cookies || WatchOf(at, op.n).None?
    ensures Agrees(tree, t', at) && t'.watches == t.watches
    ensures Drain(t, Emitted(tree, dirs, at, op)) == Drain(t', SelfEvent(at, op))
    ensures var src, dst := PathStr(PathOf(tree, op.n)), PathStr(PathOf(tree, op.parent) + [op.name]);
            if WatchOf(at, tree.entry[op.n].parent).Some? && WatchOf(at, op.parent).Some?
            then src in t'.moves && t'.moves[src].path == dst
            else WatchOf(at, op.n).Some? ==> t'.moves == t.moves
  {
    var from, to := FromEvent(tree, at, op), ToEvent(dirs, at, op);
    var a := Drain(t, from);
    FromRecorded(tree, t, at, op);
    ToRecorded(tree, dirs, a, at, op);
    t' := Drain(a, to);
    DrainConcat(t, from, to);
    DrainConcat(t, from + to, SelfEvent(at, op));
  }

  lemma RebaseOne(tree: Tree, n: Inode, parent: Inode, name: string, m: Inode, w: Watch)
    requires WellFormed(tree) && CanRename(tree, n, parent, name)
    requires m != n && Named(tree, m, w.path)
    ensures var src, dst := PathStr(PathOf(tree, n)), PathStr(PathOf(tree, parent) + [name]);
            Named(Rename(tree, n, parent, name), m, Rebase(w, src, dst).path)
  {
    var tree' := Rename(tree, n, parent, name);
    var src, par, p := PathOf(tree, n), PathOf(tree, parent), PathOf(tree, m);
    NamedBy(tree, n, src);
    NamedBy(tree, m, p);
    NamedBy(tree, parent, par);
    RenameWellFormed(tree, n, parent, name);
    RenameMoves(tree, n, parent, name, src, par, m, p);
    NamedBy(tree', m, MovedPath(src, par + [name], p));
    BelowExactly(src, p);
    if src == p {
      AtInjective(tree, n, m, p);
    } else if src < p {
      RebasedPath(src, p, par + [name]);
    }
  }

  lemma MovedSelf(tree: Tree, n: Inode, parent: Inode, name: string)
    requires WellFormed(tree) && CanRename(tree, n, parent, name)
    ensures var dst := PathOf(tree, parent) + [name];
            && Named(Rename(tree, n, parent, name), n, PathStr(dst))
            && ValidPath(dst) && ValidPath(PathOf(tree, n)) && PathOf(tree, n) != []
            && !(PathOf(tree, n) < dst)
  {
    var src, par := PathOf(tree, n), PathOf(tree, parent);
    var dst := par + [name];
    NamedBy(tree, n, src);
    NamedBy(tree, parent, par);
    RenameWellFormed(tree, n, parent, name);
    RenameMoves(tree, n, parent, name, src, par, n, src);
    assert MovedPath(src, dst, src) == dst;
    NamedBy(Rename(tree, n, parent, name), n, dst);
  }

  /** MOVE_SELF with its record at hand rebases exactly the moved watch and those below it. */
  lemma MoveSelfRebases(tree: Tree, t: Table, at: Attachment, n: Inode, parent: Inode, name: string, self: Wd)
    requires Agrees(tree, t, at) && CanRename(tree, n, parent, name)
    requires self in t.watches && at[self] == n
    requires var src := PathStr(PathOf(tree, n));
             src in t.moves && t.moves[src].path == PathStr(PathOf(tree, parent) + [name])
    ensures Agrees(Rename(tree, n, parent, name), OnMoveSelf(t, self), at)
    ensures OnMoveSelf(t, self).watches.Keys == t.watches.Keys
  {
    var tree' := Rename(tree, n, parent, name);
    var t' := OnMoveSelf(t, self);
    var src, dst := PathOf(tree, n), PathOf(tree, parent) + [name];
    RenameWellFormed(tree, n, parent, name);
    MovedSelf(tree, n, parent, name);
    BelowExactly(src, dst);
    forall d | d in t.watches
      ensures d in t'.watches && Named(tree', at[d], t'.watches[d].path)
    {
      if d != self {
        RebaseOne(tree, n, parent, name, at[d], t.watches[d]);
      }
    }
  }

  /** A move of something no watch lies in leaves all true paths alone. */
  lemma UnwatchedMove(tree: Tree, t: Table, at: Attachment, n: Inode, parent: Inode, name: string)
    requires Agrees(tree, t, at) && CanRename(tree, n, parent, name)
    requires !WatchWithin(tree, at, n)
    ensures Agrees(Rename(tree, n, parent, name), t, at)
  {
    RenameWellFormed(tree, n, parent, name);
    forall d | d in t.watches
      ensures Named(Rename(tree, n, parent, name), at[d], t.watches[d].path)
    {
      var p := PathOf(tree, at[d]);
      assert !(PathOf(tree, n) <= p);
      RenameOutside(tree, n, parent, name, PathOf(tree, n), at[d], p);
      NamedBy(Rename(tree, n, parent, name), at[d], p);
    }
  }

  lemma FreshTarget(tree: Tree, n: Inode, parent: Inode, name: string)
    requires WellFormed(tree) && CanRename(tree, n, parent, name)
    ensures PathOf(tree, n) != PathOf(tree, parent) + [name]
  {
    var src, par := PathOf(tree, n), PathOf(tree, parent);
    NamedBy(tree, n, src);
    if src == par + [name] {
      assert src[..|src| - 1] == par && src[|src| - 1] == name;
      AtInjective(tree, tree.entry[n].parent, parent, par);
    }
  }

  /** The moved inode has a new path, and so has everything below it. */
  lemma MovedAway(tree: Tree, n: Inode, parent: Inode, name: string, m: Inode, path: string)
    requires WellFormed(tree) && CanRename(tree, n, parent, name) && Named(tree, m, path) && Within(tree, n, m)
    ensures !Named(Rename(tree, n, parent, name), m, path)
  {
    var tree' := Rename(tree, n, parent, name);
    var src, par, p := PathOf(tree, n), PathOf(tree, parent), PathOf(tree, m);
    var q, p' :| At(tree, n, q) && At(tree, m, p') && q <= p';
    NamedBy(tree, n, q);
    NamedBy(tree, m, p');
    RenameWellFormed(tree, n, parent, name);
    RenameMoves(tree, n, parent, name, src, par, m, p);
    var dst := par + [name];
    NamedBy(tree', m, MovedPath(src, dst, p));
    FreshTarget(tree, n, parent, name);
    if PathStr(PathOf(tree', m)) == PathStr(p) {
      PathStrInjective(PathOf(tree', m), p);
    }
  }

  /** A target whose name does not end in the marker has a path that does not either. */
  lemma TargetUnmarked(par: seq<string>, name: string)
    requires ValidPath(par) && ValidName(name) && !EndsWith(name, UNKNOWN)
    ensures !EndsWith(PathStr(par + [name]), UNKNOWN)
  {
    var path, up := PathStr(par + [name]), PathStr(par);
    ChildJoin(par, name);
    assert '/' !in UNKNOWN;
    var k := |path| - |name|;
    assert path[k..] == name && path[k - 1] == '/';
    var from := |path| - |UNKNOWN|;
    if 0 <= from < k {
      assert path[from..][k - 1 - from] == '/';
    } else if k <= from {
      assert name[from - k..] == path[from..];
    }
  }

  /** Neither its former path nor that path marked unknown names a moved inode, but for a target named so. */
  lemma MarkedWrong(tree: Tree, n: Inode, parent: Inode, name: string, path: string)
    requires WellFormed(tree) && CanRename(tree, n, parent, name) && Named(tree, n, path)
    requires !EndsWith(name, UNKNOWN)
    ensures !Named(Rename(tree, n, parent, name), n, path)
    ensures !Named(Rename(tree, n, parent, name), n, path + UNKNOWN)
  {
    var src, par := PathOf(tree, n), PathOf(tree, parent);
    assert Within(tree, n, n) by {
      assert src <= src;
    }
    MovedAway(tree, n, parent, name, n, path);
    MovedSelf(tree, n, parent, name);
    NamedBy(tree, parent, par);
    TargetUnmarked(par, name);
    assert (path + UNKNOWN)[|path|..] == UNKNOWN;
  }

  /** Without a record, MOVE_SELF leaves the moved watch wrong. */
  lemma UnknownPathWrong(tree: Tree, t: Table, at: Attachment, n: Inode, parent: Inode, name: string, self: Wd)
    requires Agrees(tree, t, at) && CanRename(tree, n, parent, name)
    requires self in t.watches && at[self] == n
    requires PathStr(PathOf(tree, n)) !in t.moves
    requires !EndsWith(name, UNKNOWN)
    ensures !Agrees(Rename(tree, n, parent, name), OnMoveSelf(t, self), at)
  {
    MarkedWrong(tree, n, parent, name, t.watches[self].path);
    assert self in OnMoveSelf(t, self).watches;
  }

  /** A tracked move: its events take the table along. */
  lemma MoveAgrees(tree: Tree, dirs: set<Inode>, t: Table, at: Attachment, op: Op)
    requires Agrees(tree, t, at) && op.Move? && Possible(tree, at, op) && Tracked(tree, at, op)
    ensures Agrees(After(tree, op), Drain(t, Emitted(tree, dirs, at, op)), at)
  {
    var self := WatchOf(at, op.n);
    if self.Some? {
      InsideItself(tree, at, op.n);
    }
    var t' := MoveDelivered(tree, dirs, t, at, op);
    if WatchWithin(tree, at, op.n) {
      SelfAgrees(tree, t', at, op, self.value);
    } else {
      UnwatchedMove(tree, t', at, op.n, op.parent, op.name);
    }
  }

  lemma SelfAgrees(tree: Tree, t: Table, at: Attachment, op: Op, self: Wd)
    requires Agrees(tree, t, at) && op.Move? && Possible(tree, at, op) && WatchOf(at, op.n) == Some(self)
    requires var src := PathStr(PathOf(tree, op.n));
             src in t.moves && t.moves[src].path == PathStr(PathOf(tree, op.parent) + [op.name])
    ensures Agrees(After(tree, op), Drain(t, SelfEvent(at, op)), at)
  {
    assert SelfEvent(at, op) == [MoveSelf(self)];
    DrainOne(t, MoveSelf(self));
    MoveSelfRebases(tree, t, at, op.n, op.parent, op.name, self);
  }

  /** A creation or a deletion moves nobody else. */
  lemma OtherKeepsPath(tree: Tree, at: Attachment, op: Op, m: Inode, path: string)
    requires WellFormed(tree) && !op.Move? && Possible(tree, at, op) && Named(tree, m, path)
    requires op.Gone? ==> m != op.n
    ensures Named(After(tree, op), m, path)
  {
    var p := PathOf(tree, m);
    match op {
      case New(n, parent, name, _) =>
        CreateWellFormed(tree, n, parent, name);
        CreateKeeps(tree, n, parent, name, m, p);
      case Gone(n) =>
        DeleteWellFormed(tree, n);
        DeleteKeeps(tree, n, m, p);
    }
    NamedBy(After(tree, op), m, p);
  }

  lemma NewAgrees(tree: Tree, dirs: set<Inode>, t: Table, at: Attachment, op: Op)
    requires Agrees(tree, t, at) && op.New? && Possible(tree, at, op)
    ensures Agrees(After(tree, op), Drain(t, Emitted(tree, dirs, at, op)), at)
  {
    CreateWellFormed(tree, op.n, op.parent, op.name);
    DrainCreates(t, Emitted(tree, dirs, at, op));
    forall d | d in at
      ensures Named(After(tree, op), at[d], t.watches[d].path)
    {
      OtherKeepsPath(tree, at, op, at[d], t.watches[d].path);
    }
  }

  lemma GoneAgrees(tree: Tree, dirs: set<Inode>, t: Table, at: Attachment, op: Op)
    requires Agrees(tree, t, at) && op.Gone? && Possible(tree, at, op)
    ensures Agrees(After(tree, op), Drain(t, Emitted(tree, dirs, at, op)), AtAfter(at, op))
  {
    DeleteWellFormed(tree, op.n);
    if WatchOf(at, op.n).Some? {
      DrainOne(t, Ignored(WatchOf(at, op.n).value));
    }
    forall d | d in AtAfter(at, op)
      ensures Named(After(tree, op), at[d], t.watches[d].path)
    {
      OtherKeepsPath(tree, at, op, at[d], t.watches[d].path);
    }
  }

  /** A creation or a deletion: its event takes the table along. */
  lemma OtherAgrees(tree: Tree, dirs: set<Inode>, t: Table, at: Attachment, op: Op)
    requires Agrees(tree, t, at) && !op.Move? && Possible(tree, at, op)
    ensures Agrees(After(tree, op), Drain(t, Emitted(tree, dirs, at, op)), AtAfter(at, op))
  {
    if op.New? {
      NewAgrees(tree, dirs, t, at, op);
    } else {
      GoneAgrees(tree, dirs, t, at, op);
    }
  }

  // ---- watches added while events are queued ----

  /** Some step of the walk adds or renews a watch on descriptor d. */
  predicate AddedIn(walk: seq<Found>, exclude: string -> bool, d: Wd) {
    exists f :: f in walk && Added(f, exclude) && f.wd == d
  }

  /** The watch has a path found with its descriptor. */
  predicate FoundAt(walk: seq<Found>, exclude: string -> bool, d: Wd, path: string) {
    exists f :: f in walk && Added(f, exclude) && f.wd == d && path == NormPath(f.path)
  }

  lemma {:induction false} AddFoundAt(watches: map<Wd, Watch>, walk: seq<Found>, exclude: string -> bool, d: Wd)
    ensures var ws := AddFound(watches, walk, exclude);
            && (d in ws <==> d in watches || AddedIn(walk, exclude, d))
            && (!AddedIn(walk, exclude, d) && d in watches ==> ws[d] == watches[d])
            && (AddedIn(walk, exclude, d) ==> FoundAt(walk, exclude, d, ws[d].path))
    decreases |walk|
  {
    if walk != [] {
      var f, rest := walk[0], walk[1..];
      assert walk == [f] + rest;
      var first := if Added(f, exclude) then watches[f.wd := Watch(NormPath(f.path), true, exclude)] else watches;
      AddFoundAt(first, rest, exclude, d);
      assert AddedIn(walk, exclude, d) <==> (Added(f, exclude) && f.wd == d) || AddedIn(rest, exclude, d);
      if AddedIn(rest, exclude, d) {
        var g :| g in rest && Added(g, exclude) && g.wd == d
            && AddFound(watches, walk, exclude)[d].path == NormPath(g.path);
        assert g in walk;
      }
    }
  }

  /** The descriptors in the walk are attached to what the paths lead to now; further ones stay, no others come. */
  ghost predicate Answered(tree: Tree, at: Attachment, at': Attachment, walk: seq<Found>, exclude: string -> bool) {
    && OnePerInode(at')
    && (forall d :: d in at' <==> d in at || AddedIn(walk, exclude, d))
    && (forall d :: d in at ==> at'[d] == at[d])
    && (forall f :: f in walk && Added(f, exclude) ==> f.wd in at' && Named(tree, at'[f.wd], NormPath(f.path)))
  }

  lemma AddOne(watches: map<Wd, Watch>, path: string, d: Wd, exclude: string -> bool)
    requires !exclude(path) && NormPath(path) == path
    ensures AddFound(watches, [Found(path, d)], exclude) == watches[d := Watch(path, true, exclude)]
  {
    assert [Found(path, d)][1..] == [];
  }

  /** Descriptors are never used again. */
  ghost predicate NewDescriptors(t: Table, queue: seq<Event>, at: Attachment, at': Attachment) {
    forall d :: d in at' && d !in at ==> d !in t.watches && forall e :: e in queue ==> e.wd != d
  }

  /** No event in the queue needs the path of this watch. */
  predicate Unused(queue: seq<Event>, d: Wd) {
    forall e :: e in queue && e.wd == d ==> !e.MovedFrom? && !e.MovedTo? && !e.MoveSelf?
  }

  predicate SamePath(t: Table, t': Table, d: Wd) {
    && (d in t.watches <==> d in t'.watches)
    && (d in t.watches ==> t.watches[d].path == t'.watches[d].path)
  }

  /** The tables differ only in watches of c, and in nothing but paths that matter. */
  ghost predicate SamePaths(t: Table, t': Table, c: set<Wd>) {
    t.cookies == t'.cookies && t.moves == t'.moves && forall d :: d !in c ==> SamePath(t, t', d)
  }

  lemma SameSelf(t: Table, t': Table, wd: Wd, c: set<Wd>)
    requires SamePaths(t, t', c) && wd !in c && wd in t.watches
    ensures wd in t'.watches && SamePaths(OnMoveSelf(t, wd), OnMoveSelf(t', wd), c)
  {
    assert SamePath(t, t', wd);
    forall d | d !in c
      ensures SamePath(OnMoveSelf(t, wd), OnMoveSelf(t', wd), d)
    {
      assert SamePath(t, t', d);
    }
  }

  lemma SameStep(t: Table, t': Table, e: Event, c: set<Wd>)
    requires SamePaths(t, t', c) && (Unused([e], e.wd) || e.wd !in c)
    ensures SamePaths(Handle(t, e, 0, []), Handle(t', e, 0, []), c)
  {
    if e.wd !in c {
      assert SamePath(t, t', e.wd);
      if e.MoveSelf? && e.wd in t.watches {
        SameSelf(t, t', e.wd, c);
      } else {
        forall d | d !in c
          ensures SamePath(Handle(t, e, 0, []), Handle(t', e, 0, []), d)
        {
          assert SamePath(t, t', d);
        }
      }
    } else {
      assert e in [e];
      forall d | d !in c
        ensures SamePath(Handle(t, e, 0, []), Handle(t', e, 0, []), d)
      {
        assert SamePath(t, t', d);
      }
    }
  }

  lemma {:induction false} DrainSame(t: Table, t': Table, q: seq<Event>, c: set<Wd>)
    requires SamePaths(t, t', c) && forall d :: d in c ==> Unused(q, d)
    ensures SamePaths(Drain(t, q), Drain(t', q), c)
    decreases |q|
  {
    if q != [] {
      var e := q[0];
      assert q == [e] + q[1..];
      if e.wd in c {
        assert Unused(q, e.wd) && e in q;
      }
      SameStep(t, t', e, c);
      forall d | d in c
        ensures Unused(q[1..], d)
      {
        assert Unused(q, d);
      }
      DrainSame(Handle(t, e, 0, []), Handle(t', e, 0, []), q[1..], c);
    }
  }

  /** The queue leaves the path of this watch as it is. */
  predicate Stays(t: Table, queue: seq<Event>, d: Wd) {
    d in t.watches && d in Drain(t, queue).watches && Drain(t, queue).watches[d].path == t.watches[d].path
  }

  /** Adding made nothing different for what the queue is still to do. */
  predicate Undisturbed(t: Table, t': Table, queue: seq<Event>, d: Wd) {
    Unused(queue, d) || (d in t.watches && d in t'.watches && t.watches[d].path == t'.watches[d].path)
  }

  /** The paths of the watches that are not added come to the same. */
  ghost predicate OthersSame(t: Table, t': Table, queue: seq<Event>, walk: seq<Found>, exclude: string -> bool) {
    forall d :: !AddedIn(walk, exclude, d) ==> SamePath(Drain(t, queue), Drain(t', queue), d)
  }

  /** Handling an event that adds watches at true paths, with further events queued. */
  ghost predicate Adding(tree: Tree, t: Table, at: Attachment, e: Event, rest: seq<Event>, walk: seq<Found>,
                         at': Attachment) {
    && e.wd in t.watches && AddingPath(t, e).Some?
    && Answered(tree, at, at', walk, t.watches[e.wd].exclude)
    && NewDescriptors(t, [e] + rest, at, at')
  }

  lemma AddedKeys(tree: Tree, t: Table, at: Attachment, e: Event, rest: seq<Event>, walk: seq<Found>, at': Attachment)
    requires Adding(tree, t, at, e, rest, walk, at') && Drain(t, [e] + rest).watches.Keys == at.Keys
    ensures Drain(Handle(t, e, 0, walk), rest).watches.Keys == at'.Keys
  {
    var t' := Handle(t, e, 0, walk);
    forall d
      ensures d in Drain(t', rest).watches <==> d in at'
    {
      AddedKey(tree, t, at, e, rest, walk, at', d);
    }
  }

  lemma AddedKey(tree: Tree, t: Table, at: Attachment, e: Event, rest: seq<Event>, walk: seq<Found>, at': Attachment,
                 d: Wd)
    requires Adding(tree, t, at, e, rest, walk, at') && Drain(t, [e] + rest).watches.Keys == at.Keys
    ensures d in Drain(Handle(t, e, 0, walk), rest).watches <==> d in at'
  {
    DrainKeys(t, [e] + rest, d);
    DrainKeys(Handle(t, e, 0, walk), rest, d);
    AddFoundAt(t.watches, walk, t.watches[e.wd].exclude, d);
    assert d in Drain(t, [e] + rest).watches <==> d in at;
    assert Ignored(d) in [e] + rest <==> Ignored(d) in rest;
    assert d in at' && d !in at ==> Ignored(d) !in [e] + rest by {
      assert Ignored(d).wd == d;
    }
  }

  ghost predicate AllUndisturbed(t: Table, t': Table, rest: seq<Event>, walk: seq<Found>, exclude: string -> bool) {
    forall d :: AddedIn(walk, exclude, d) ==> Undisturbed(t, t', rest, d)
  }

  ghost predicate AllStay(t: Table, rest: seq<Event>, walk: seq<Found>, exclude: string -> bool) {
    forall d :: AddedIn(walk, exclude, d) ==> Stays(t, rest, d)
  }

  lemma AddedNamed(tree: Tree, t: Table, at: Attachment, e: Event, rest: seq<Event>, walk: seq<Found>,
                   at': Attachment, d: Wd)
    requires Adding(tree, t, at, e, rest, walk, at') && AddedIn(walk, t.watches[e.wd].exclude, d)
    ensures var t' := Handle(t, e, 0, walk); d in at' && d in t'.watches && Named(tree, at'[d], t'.watches[d].path)
  {
    AddFoundAt(t.watches, walk, t.watches[e.wd].exclude, d);
  }

  /** What is queued first adds nothing more. */
  lemma AddingDrain(tree: Tree, t: Table, at: Attachment, e: Event, rest: seq<Event>, walk: seq<Found>, at': Attachment)
    requires Adding(tree, t, at, e, rest, walk, at')
    ensures Drain(t, [e] + rest) == Drain(t, rest)
  {
    assert ([e] + rest)[1..] == rest && Handle(t, e, 0, []) == t;
  }

  /** The watches that are not added go where they would have gone, if no event queued is of a watch changed. */
  lemma OthersGo(tree: Tree, t: Table, at: Attachment, e: Event, rest: seq<Event>, walk: seq<Found>, at': Attachment)
    requires Adding(tree, t, at, e, rest, walk, at')
    requires AllUndisturbed(t, Handle(t, e, 0, walk), rest, walk, t.watches[e.wd].exclude)
    ensures OthersSame(t, Handle(t, e, 0, walk), rest, walk, t.watches[e.wd].exclude)
  {
    var t' := Handle(t, e, 0, walk);
    var exclude := t.watches[e.wd].exclude;
    var changed := set d | d in t'.watches && !SamePath(t, t', d);
    forall d
      ensures d !in changed ==> SamePath(t, t', d)
      ensures d in changed ==> AddedIn(walk, exclude, d) && Unused(rest, d)
    {
      AddFoundAt(t.watches, walk, exclude, d);
      assert AddedIn(walk, exclude, d) ==> Undisturbed(t, t', rest, d);
    }
    DrainSame(t, t', rest, changed);
  }

  /**
   Adding watches keeps table and tree on course exactly when nothing still queued moves the paths just added, and
   the other watches go where they would have gone without them.
   */
  lemma AddsExactly(tree: Tree, t: Table, at: Attachment, e: Event, rest: seq<Event>, walk: seq<Found>, at': Attachment)
    requires Agrees(tree, Drain(t, [e] + rest), at) && Adding(tree, t, at, e, rest, walk, at')
    ensures var t', exclude := Handle(t, e, 0, walk), t.watches[e.wd].exclude;
            Agrees(tree, Drain(t', rest), at') <==>
              AllStay(t', rest, walk, exclude) && OthersSame(t, t', rest, walk, exclude)
  {
    var t', exclude := Handle(t, e, 0, walk), t.watches[e.wd].exclude;
    AddedKeys(tree, t, at, e, rest, walk, at');
    AddingDrain(tree, t, at, e, rest, walk, at');
    forall d | AddedIn(walk, exclude, d)
      ensures d in at' && (Stays(t', rest, d) <==> RightAt(tree, Drain(t', rest), at', d))
    {
      AddedRight(tree, t, at, e, rest, walk, at', d);
    }
    forall d | !AddedIn(walk, exclude, d)
      ensures SamePath(Drain(t, rest), Drain(t', rest), d) <==> RightAt(tree, Drain(t', rest), at', d)
    {
      OtherRight(tree, Drain(t, rest), Drain(t', rest), at, at', walk, exclude, d);
    }
    RightEverywhere(tree, Drain(t', rest), at');
  }

  /** One watch is right, if it is one. */
  ghost predicate RightAt(tree: Tree, t: Table, at: Attachment, d: Wd) {
    (d in t.watches <==> d in at) && (d in at ==> Named(tree, at[d], t.watches[d].path))
  }

  lemma RightEverywhere(tree: Tree, t: Table, at: Attachment)
    requires WellFormed(tree) && OnePerInode(at)
    ensures Agrees(tree, t, at) <==> forall d :: RightAt(tree, t, at, d)
  {
    if forall d :: RightAt(tree, t, at, d) {
      assert forall d :: d in t.watches.Keys <==> d in at.Keys by {
        assert forall d :: RightAt(tree, t, at, d) ==> (d in t.watches <==> d in at);
      }
      assert forall d :: d in at ==> RightAt(tree, t, at, d);
    } else {
      var d :| !RightAt(tree, t, at, d);
    }
  }

  lemma AddedRight(tree: Tree, t: Table, at: Attachment, e: Event, rest: seq<Event>, walk: seq<Found>,
                   at': Attachment, d: Wd)
    requires Adding(tree, t, at, e, rest, walk, at') && AddedIn(walk, t.watches[e.wd].exclude, d)
    requires Drain(Handle(t, e, 0, walk), rest).watches.Keys == at'.Keys
    ensures var t' := Handle(t, e, 0, walk);
            d in at' && (Stays(t', rest, d) <==> RightAt(tree, Drain(t', rest), at', d))
  {
    AddedNamed(tree, t, at, e, rest, walk, at', d);
    assert d in Drain(Handle(t, e, 0, walk), rest).watches <==> d in at';
  }

  lemma OtherRight(tree: Tree, t: Table, t': Table, at: Attachment, at': Attachment, walk: seq<Found>,
                   exclude: string -> bool, d: Wd)
    requires Agrees(tree, t, at) && Answered(tree, at, at', walk, exclude) && !AddedIn(walk, exclude, d)
    requires t'.watches.Keys == at'.Keys
    ensures SamePath(t, t', d) <==> RightAt(tree, t', at', d)
  {
    assert d in at' <==> d in at;
    assert d in at <==> d in t.watches;
  }

  /** No MOVE_SELF in the queue is of this watch or takes its path along, when its turn comes. */
  predicate NotTaken(t: Table, queue: seq<Event>, d: Wd)
    decreases |queue|
  {
    |queue| > 0 ==>
      && var e := queue[0];
         !TakesAlong(t, e, d) && NotTaken(Handle(t, e, 0, []), queue[1..], d)
  }

  predicate TakesAlong(t: Table, e: Event, d: Wd) {
    d in t.watches && e.wd in t.watches && e.MoveSelf? && (e.wd == d || t.watches[e.wd].path + "/" <= t.watches[d].path)
  }

  /** So a watch that is added stays where it is when no move still queued is of a directory on its path. */
  lemma {:induction false} NotTakenStays(t: Table, queue: seq<Event>, d: Wd)
    requires d in t.watches && Ignored(d) !in queue && NotTaken(t, queue, d)
    ensures Stays(t, queue, d)
    decreases |queue|
  {
    if queue != [] {
      var e := queue[0];
      assert queue == [e] + queue[1..];
      NotTakenStays(Handle(t, e, 0, []), queue[1..], d);
    }
  }

  lemma {:induction false} NoMoveNotTaken(t: Table, queue: seq<Event>, d: Wd)
    requires forall e :: e in queue ==> !e.MoveSelf?
    ensures NotTaken(t, queue, d)
    decreases |queue|
  {
    if queue != [] {
      assert queue[0] in queue;
      NoMoveNotTaken(Handle(t, queue[0], 0, []), queue[1..], d);
    }
  }

  // ---- runs ----

  /** The notifier with its queue and the events it has seen in this batch; the kernel with its own queue. */
  datatype State = State(tree: Tree, dirs: set<Inode>, at: Attachment, kernel: seq<Event>,
                         table: Table, queue: seq<Event>, coalesce: bool, seen: set<Event>)

  /**
   An operation on the file system; an event without effect; reading the next events of the kernel; taking the next
   event of the queue, while the kernel's descriptors become at; the clean-up when the queue is empty; and switching
   coalescing on or off.
   */
  datatype Step =
    | Fs(op: Op)
    | Noise(wd: Wd)
    | Read(n: nat)
    | Take(answer: Answer, at: Attachment)
    | Clean(now: int)
    | Coalesce(on: bool)

  function Pending(s: State): seq<Event> {
    s.queue + s.kernel
  }

  /** An event as it is compared when coalescing. */
  function Itself(e: Event): Event {
    e
  }

  /** What is enqueued of the next n events of the kernel. */
  function Enqueued(s: State, n: nat): seq<Event>
    requires n <= |s.kernel|
  {
    if s.coalesce then FirstOnly(Itself, s.seen, s.kernel[..n]) else s.kernel[..n]
  }

  /** The event next in the queue is one that adds watches. */
  predicate Adds(s: State)
    requires s.queue != []
  {
    s.queue[0].wd in s.table.watches && AddingPath(s.table, s.queue[0]).Some?
  }

  /** Everything that is queued behind the next event. */
  function Rest(s: State): seq<Event>
    requires s.queue != []
  {
    s.queue[1..] + s.kernel
  }

  ghost predicate Legal(s: State, step: Step) {
    match step
    case Fs(op) => Possible(s.tree, s.at, op)
    case Noise(_) => true
    case Read(n) => n <= |s.kernel|
    case Take(a, at') =>
      && s.queue != []
      && (forall i :: i in a.inner ==> i.Created?)
      && (if Adds(s) then Adding(s.tree, s.table, s.at, s.queue[0], Rest(s), a.walk, at') else at' == s.at)
    case Clean(_) => s.queue == []
    case Coalesce(_) => true
  }

  ghost function Next(s: State, step: Step): State
    requires Legal(s, step)
  {
    match step
    case Fs(op) =>
      s.(tree := After(s.tree, op), dirs := DirsAfter(s.dirs, op), at := AtAfter(s.at, op),
         kernel := s.kernel + Emitted(s.tree, s.dirs, s.at, op))
    case Noise(wd) => s.(kernel := s.kernel + [Other(wd)])
    case Read(n) =>
      s.(kernel := s.kernel[n..], queue := s.queue + Enqueued(s, n),
         seen := if s.coalesce then s.seen + Keys(Itself, s.kernel[..n]) else s.seen)
    case Take(a, at') =>
      var e := s.queue[0];
      s.(at := at', table := Handle(s.table, e, a.now, a.walk), queue := s.queue[1..] + Queued(s.table, e, a))
    case Clean(now) => s.(table := OnCleanup(s.table, now), seen := if s.coalesce then {} else s.seen)
    case Coalesce(on) => s.(coalesce := on, seen := if on then s.seen else {})
  }

  /** All paths come to the same. */
  ghost predicate SameCourse(t: Table, q: seq<Event>, t': Table, q': seq<Event>) {
    forall d :: SamePath(Drain(t, q), Drain(t', q'), d)
  }

  /** No record is dropped that an event still queued needs. */
  ghost predicate Harmless(t: Table, queue: seq<Event>, now: int) {
    SameCourse(Undated(t), queue, Undated(OnCleanup(t, now)), queue)
  }

  /**
   Moves are tracked; no event is dropped that matters; watches added stay where they are and take no other along;
   clean-ups come in time.
   */
  ghost predicate Smooth(s: State, step: Step)
    requires Legal(s, step)
  {
    match step
    case Fs(op) => Tracked(s.tree, s.at, op)
    case Noise(_) => true
    case Read(n) =>
      SameCourse(Undated(s.table), Pending(s), Undated(s.table), s.queue + Enqueued(s, n) + s.kernel[n..])
    case Take(a, _) =>
      Adds(s) ==>
        var t, t', exclude := Undated(s.table), Undated(Handle(s.table, s.queue[0], a.now, a.walk)),
            s.table.watches[s.queue[0].wd].exclude;
        AllStay(t', Rest(s), a.walk, exclude) && OthersSame(t, t', Rest(s), a.walk, exclude)
    case Clean(now) => Harmless(s.table, Pending(s), now)
    case Coalesce(_) => true
  }

  /** The table, once what is queued is handled, has the path of every watched inode in the tree as it is now. */
  ghost predicate OnCourse(s: State) {
    Agrees(s.tree, Drain(Undated(s.table), Pending(s)), s.at)
  }

  lemma FsOnCourse(s: State, op: Op)
    requires OnCourse(s) && Legal(s, Fs(op)) && Smooth(s, Fs(op))
    ensures OnCourse(Next(s, Fs(op)))
  {
    FsNext(s, op);
    DrainConcat(Undated(s.table), Pending(s), Emitted(s.tree, s.dirs, s.at, op));
    OpAgrees(s.tree, s.dirs, Drain(Undated(s.table), Pending(s)), s.at, op);
  }

  lemma FsNext(s: State, op: Op)
    requires Legal(s, Fs(op))
    ensures var s' := Next(s, Fs(op));
            && s'.tree == After(s.tree, op) && s'.at == AtAfter(s.at, op) && s'.table == s.table
            && Pending(s') == Pending(s) + Emitted(s.tree, s.dirs, s.at, op)
  {
    var es := Emitted(s.tree, s.dirs, s.at, op);
    assert s.queue + (s.kernel + es) == s.queue + s.kernel + es;
  }

  lemma OpAgrees(tree: Tree, dirs: set<Inode>, t: Table, at: Attachment, op: Op)
    requires Agrees(tree, t, at) && Possible(tree, at, op) && Tracked(tree, at, op)
    ensures Agrees(After(tree, op), Drain(t, Emitted(tree, dirs, at, op)), AtAfter(at, op))
  {
    if op.Move? {
      MoveAgrees(tree, dirs, t, at, op);
    } else {
      OtherAgrees(tree, dirs, t, at, op);
    }
  }

  /** A table agrees exactly if it has the paths of one that does. */
  lemma AgreesExactly(tree: Tree, t: Table, t': Table, at: Attachment)
    requires Agrees(tree, t, at)
    ensures Agrees(tree, t', at) <==> forall d :: SamePath(t, t', d)
  {
    RightEverywhere(tree, t', at);
    forall d
      ensures SamePath(t, t', d) <==> RightAt(tree, t', at, d)
    {
      assert d in at <==> d in t.watches;
    }
  }

  /** What an event queues changes no path. */
  lemma QueuedDrain(t: Table, a: seq<Event>, more: seq<Event>, b: seq<Event>)
    requires forall e :: e in more ==> e.Created? || e.Other?
    ensures Drain(t, a + more + b) == Drain(t, a + b)
  {
    DrainConcat(t, a + more, b);
    DrainConcat(t, a, more);
    DrainConcat(t, a, b);
    DrainCreates(Drain(t, a), more);
  }

  /** Taking an event keeps the course exactly when the watches it adds stay where they are and disturb no other. */
  lemma TakeOnCourse(s: State, a: Answer, at': Attachment)
    requires OnCourse(s) && Legal(s, Take(a, at'))
    ensures OnCourse(Next(s, Take(a, at'))) <==> Smooth(s, Take(a, at'))
  {
    var e, t := s.queue[0], Undated(s.table);
    TakeDrain(s, a, at');
    UndatedHandle(s.table, e, a.now, a.walk);
    if Adds(s) {
      AddsExactly(s.tree, t, s.at, e, Rest(s), a.walk, at');
    } else {
      assert Handle(t, e, 0, a.walk) == Handle(t, e, 0, []);
      assert ([e] + Rest(s))[1..] == Rest(s);
    }
  }

  /** A watch that will not have the path of its inode, after an event is taken. */
  lemma OffCourse(s: State, a: Answer, at': Attachment, d: Wd)
    requires Legal(s, Take(a, at')) && d in at'
    requires var t := Drain(Handle(Undated(s.table), s.queue[0], 0, a.walk), Rest(s));
             d in t.watches && !Named(s.tree, at'[d], t.watches[d].path)
    ensures !OnCourse(Next(s, Take(a, at')))
  {
    TakeDrain(s, a, at');
    UndatedHandle(s.table, s.queue[0], a.now, a.walk);
  }

  lemma TakeDrain(s: State, a: Answer, at': Attachment)
    requires Legal(s, Take(a, at'))
    ensures Pending(s) == [s.queue[0]] + Rest(s)
    ensures var s' := Next(s, Take(a, at')); Drain(Undated(s'.table), Pending(s')) == Drain(Undated(s'.table), Rest(s))
  {
    var s' := Next(s, Take(a, at'));
    QueuedDrain(Undated(s'.table), s.queue[1..], Queued(s.table, s.queue[0], a), s.kernel);
  }

  /** Reading events keeps the course exactly when what is dropped changes no path. */
  lemma ReadOnCourse(s: State, n: nat)
    requires OnCourse(s) && Legal(s, Read(n))
    ensures OnCourse(Next(s, Read(n))) <==> Smooth(s, Read(n))
  {
    var t := Undated(s.table);
    AgreesExactly(s.tree, Drain(t, Pending(s)), Drain(t, s.queue + Enqueued(s, n) + s.kernel[n..]), s.at);
  }

  lemma CleanOnCourse(s: State, now: int)
    requires OnCourse(s) && Legal(s, Clean(now))
    ensures OnCourse(Next(s, Clean(now))) <==> Smooth(s, Clean(now))
  {
    var t, t' := Undated(s.table), Undated(OnCleanup(s.table, now));
    AgreesExactly(s.tree, Drain(t, Pending(s)), Drain(t', Pending(s)), s.at);
  }

  lemma StepOnCourse(s: State, step: Step)
    requires OnCourse(s) && Legal(s, step) && Smooth(s, step)
    ensures OnCourse(Next(s, step))
  {
    match step {
      case Fs(op) => FsOnCourse(s, op);
      case Noise(wd) =>
        assert Pending(Next(s, step)) == Pending(s) + [Other(wd)] + [];
        QueuedDrain(Undated(s.table), Pending(s), [Other(wd)], []);
        assert Pending(s) + [] == Pending(s);
      case Read(n) => ReadOnCourse(s, n);
      case Take(a, at') => TakeOnCourse(s, a, at');
      case Clean(now) => CleanOnCourse(s, now);
      case Coalesce(_) =>
    }
  }

  // ---- what coalescing drops ----

  /** An event that does nothing at its turn: one without effect on paths, or the end of a watch that is gone. */
  predicate Idle(t: Table, before: seq<Event>, e: Event) {
    e.Created? || e.Other? || (e.Ignored? && e.wd !in Drain(t, before).watches)
  }

  /** Every repeated event is idle. */
  ghost predicate IdleRepeats(t: Table, queue: seq<Event>, seen: set<Event>, batch: seq<Event>) {
    forall i: nat :: i < |batch| && Itself(batch[i]) in seen + Keys(Itself, batch[..i]) ==>
        Idle(t, queue + batch[..i], batch[i])
  }

  lemma IdleDrain(t: Table, before: seq<Event>, e: Event)
    requires Idle(t, before, e)
    ensures Drain(t, before + [e]) == Drain(t, before)
  {
    DrainConcat(t, before, [e]);
    DrainOne(Drain(t, before), e);
    if e.Ignored? {
      assert Drain(t, before).watches - {e.wd} == Drain(t, before).watches;
    }
  }

  lemma IdleFront(t: Table, queue: seq<Event>, seen: set<Event>, front: seq<Event>, last: Event)
    requires IdleRepeats(t, queue, seen, front + [last])
    ensures IdleRepeats(t, queue, seen, front)
    ensures Itself(last) in seen + Keys(Itself, front) ==> Idle(t, queue + front, last)
  {
    var batch := front + [last];
    assert batch[..|front|] == front && batch[|front|] == last;
    forall i: nat | i < |front| && Itself(front[i]) in seen + Keys(Itself, front[..i])
      ensures Idle(t, queue + front[..i], front[i])
    {
      assert batch[..i] == front[..i] && batch[i] == front[i];
    }
  }

  lemma CoalescedLast(t: Table, queue: seq<Event>, kept: seq<Event>, front: seq<Event>, last: Event, repeated: bool)
    requires Drain(t, queue + kept) == Drain(t, queue + front)
    requires repeated ==> Idle(t, queue + front, last)
    ensures Drain(t, queue + (kept + if repeated then [] else [last])) == Drain(t, queue + (front + [last]))
  {
    assert queue + (front + [last]) == queue + front + [last];
    if repeated {
      assert kept + [] == kept;
      IdleDrain(t, queue + front, last);
    } else {
      assert queue + (kept + [last]) == queue + kept + [last];
      DrainConcat(t, queue + kept, [last]);
      DrainConcat(t, queue + front, [last]);
    }
  }

  lemma {:induction false} CoalescedDrain(t: Table, queue: seq<Event>, seen: set<Event>, batch: seq<Event>)
    requires IdleRepeats(t, queue, seen, batch)
    ensures Drain(t, queue + FirstOnly(Itself, seen, batch)) == Drain(t, queue + batch)
    decreases |batch|
  {
    if batch != [] {
      var front, last := batch[..|batch| - 1], batch[|batch| - 1];
      assert batch == front + [last];
      IdleFront(t, queue, seen, front, last);
      CoalescedDrain(t, queue, seen, front);
      FirstOnlyStep(Itself, seen, front, last);
      CoalescedLast(t, queue, FirstOnly(Itself, seen, front), front, last, Itself(last) in seen + Keys(Itself, front));
    }
  }

  /** So coalescing does no harm as long as every event that it drops is idle; a repeated MOVE_SELF is not. */
  lemma IdleReads(s: State, n: nat)
    requires Legal(s, Read(n)) && IdleRepeats(Undated(s.table), s.queue, s.seen, s.kernel[..n])
    ensures Smooth(s, Read(n))
  {
    var t, batch, rest := Undated(s.table), s.kernel[..n], s.kernel[n..];
    assert Pending(s) == s.queue + batch + rest;
    DrainConcat(t, s.queue + batch, rest);
    DrainConcat(t, s.queue + Enqueued(s, n), rest);
    if s.coalesce {
      CoalescedDrain(t, s.queue, s.seen, batch);
    }
  }

  ghost predicate ValidRun(s: State, run: seq<Step>)
    decreases |run|
  {
    run != [] ==> Legal(s, run[0]) && Smooth(s, run[0]) && ValidRun(Next(s, run[0]), run[1..])
  }

  ghost function Run(s: State, run: seq<Step>): State
    requires ValidRun(s, run)
    decreases |run|
  {
    if run == [] then s else Run(Next(s, run[0]), run[1..])
  }

  lemma {:induction false} RunAppend(s: State, run: seq<Step>, step: Step)
    requires ValidRun(s, run) && Legal(Run(s, run), step) && Smooth(Run(s, run), step)
    ensures ValidRun(s, run + [step]) && Run(s, run + [step]) == Next(Run(s, run), step)
    decreases |run|
  {
    if run == [] {
      assert [step][1..] == [] && run + [step] == [step];
    } else {
      assert (run + [step])[1..] == run[1..] + [step];
      RunAppend(Next(s, run[0]), run[1..], step);
    }
  }

  lemma RunFour(s: State, a: Step, b: Step, c: Step, d: Step)
    requires Legal(s, a) && Smooth(s, a)
    requires var s1 := Next(s, a); Legal(s1, b) && Smooth(s1, b)
    requires var s2 := Next(Next(s, a), b); Legal(s2, c) && Smooth(s2, c)
    requires var s3 := Next(Next(Next(s, a), b), c); Legal(s3, d) && Smooth(s3, d)
    ensures var run := [a] + [b] + [c] + [d];
            ValidRun(s, run) && Run(s, run) == Next(Next(Next(Next(s, a), b), c), d)
  {
    RunAppend(s, [], a);
    assert [] + [a] == [a];
    RunAppend(s, [a], b);
    RunAppend(s, [a] + [b], c);
    RunAppend(s, [a] + [b] + [c], d);
  }

  lemma ReadAll(s: State)
    requires !s.coalesce
    ensures var read := Read(|s.kernel|);
            && Legal(s, read) && Smooth(s, read)
            && Next(s, read) == s.(kernel := [], queue := s.queue + s.kernel)
  {
    assert s.kernel[..|s.kernel|] == s.kernel && s.kernel[|s.kernel|..] == [];
    assert s.queue + s.kernel + [] == s.queue + s.kernel;
  }

  lemma {:induction false} RunOnCourse(s: State, run: seq<Step>)
    requires OnCourse(s) && ValidRun(s, run)
    ensures OnCourse(Run(s, run))
    decreases |run|
  {
    if run != [] {
      StepOnCourse(s, run[0]);
      RunOnCourse(Next(s, run[0]), run[1..]);
    }
  }

  /**
   File system operations, the reading and handling of events, coalesced or not, and clean-ups in any order: whenever
   nothing is queued, every watch stores the path of its inode in the tree as it is then.
   */
  lemma RunAgrees(s: State, run: seq<Step>)
    requires Agrees(s.tree, s.table, s.at) && Pending(s) == [] && ValidRun(s, run)
    requires Pending(Run(s, run)) == []
    ensures var s' := Run(s, run); Agrees(s'.tree, s'.table, s'.at)
  {
    RunOnCourse(s, run);
  }

  /** While no move is queued, added watches stay where they are and disturb no other. */
  lemma QuietAdds(s: State, a: Answer, at': Attachment)
    requires OnCourse(s) && Legal(s, Take(a, at'))
    requires forall e :: e in Pending(s) ==> !e.MoveSelf? && !e.MovedFrom? && !e.MovedTo?
    ensures Smooth(s, Take(a, at'))
  {
    var e, rest, t := s.queue[0], Rest(s), Undated(s.table);
    assert Pending(s) == [e] + rest;
    UndatedHandle(s.table, e, a.now, a.walk);
    if Adds(s) {
      var exclude := s.table.watches[e.wd].exclude;
      AddedKeys(s.tree, t, s.at, e, rest, a.walk, at');
      forall d | AddedIn(a.walk, exclude, d)
        ensures Unused(rest, d) && Stays(Handle(t, e, 0, a.walk), rest, d)
      {
        AddedNamed(s.tree, t, s.at, e, rest, a.walk, at', d);
        DrainKeys(Handle(t, e, 0, a.walk), rest, d);
        NoMoveNotTaken(Handle(t, e, 0, a.walk), rest, d);
        NotTakenStays(Handle(t, e, 0, a.walk), rest, d);
      }
      OthersGo(s.tree, t, s.at, e, rest, a.walk, at');
    }
  }

  lemma {:induction false} DrainRecords(t: Table, t': Table, queue: seq<Event>)
    requires t.watches == t'.watches && forall e :: e in queue ==> !e.MovedTo? && !e.MoveSelf?
    ensures Drain(t, queue).watches == Drain(t', queue).watches
    decreases |queue|
  {
    if queue != [] {
      assert queue[0] in queue;
      DrainRecords(Handle(t, queue[0], 0, []), Handle(t', queue[0], 0, []), queue[1..]);
    }
  }

  /** A clean-up is harmless when no second half of a move is queued, or when no record is older than a minute. */
  lemma CleanInTime(t: Table, queue: seq<Event>, now: int)
    requires (forall e :: e in queue ==> !e.MovedTo? && !e.MoveSelf?)
          || ((forall c :: c in t.cookies ==> now - t.cookies[c].date <= MINUTE)
              && (forall p :: p in t.moves ==> now - t.moves[p].date <= MINUTE))
    ensures Harmless(t, queue, now)
  {
    if forall e :: e in queue ==> !e.MovedTo? && !e.MoveSelf? {
      DrainRecords(Undated(OnCleanup(t, now)), Undated(t), queue);
    } else {
      assert OnCleanup(t, now) == t;
    }
  }

  // ---- one rename, exactly ----

  /** Handling a list of events, the system giving the same answers throughout. */
  function HandleAll(t: Table, q: seq<Event>, now: int, walk: seq<Found>): Table
    decreases |q|
  {
    if |q| == 0 then t else HandleAll(Handle(t, q[0], now, walk), q[1..], now, walk)
  }

  lemma {:induction false} UndatedAll(t: Table, q: seq<Event>, now: int, walk: seq<Found>)
    ensures Undated(HandleAll(t, q, now, walk)) == HandleAll(Undated(t), q, 0, walk)
    decreases |q|
  {
    if q != [] {
      UndatedHandle(t, q[0], now, walk);
      UndatedAll(Handle(t, q[0], now, walk), q[1..], now, walk);
    }
  }

  predicate PlainAlong(t: Table, q: seq<Event>)
    decreases |q|
  {
    |q| > 0 ==> (q[0].wd in t.watches ==> AddingPath(t, q[0]).None?) && PlainAlong(Handle(t, q[0], 0, []), q[1..])
  }

  lemma {:induction false} PlainDrain(t: Table, q: seq<Event>, walk: seq<Found>)
    requires PlainAlong(t, q)
    ensures HandleAll(t, q, 0, walk) == Drain(t, q)
    decreases |q|
  {
    if q != [] {
      PlainDrain(Handle(t, q[0], 0, []), q[1..], walk);
    }
  }

  lemma {:induction false} PlainConcat(t: Table, a: seq<Event>, b: seq<Event>)
    requires PlainAlong(t, a) && PlainAlong(Drain(t, a), b)
    ensures PlainAlong(t, a + b)
    decreases |a|
  {
    if a == [] {
      assert a + b == b;
    } else {
      PlainConcat(Handle(t, a[0], 0, []), a[1..], b);
      assert (a + b)[1..] == a[1..] + b;
    }
  }

  /** The rename looks like a directory moved in from an unknown place, and is watched for such. */
  ghost predicate MovedIn(tree: Tree, dirs: set<Inode>, t: Table, at: Attachment, op: Op)
    requires Possible(tree, at, op) && op.Move? && t.watches.Keys == at.Keys
  {
    && WatchOf(at, tree.entry[op.n].parent).None?
    && WatchOf(at, op.parent).Some?
    && op.n in dirs
    && var w := t.watches[WatchOf(at, op.parent).value];
       w.autoAdd && !w.exclude(PathStr(PathOf(tree, op.parent) + [op.name]))
  }

  /**
   The walk has every directory of the moved subtree under its new path, and nothing else; only excluded ones
   may fail.
   */
  ghost predicate WalksAll(tree: Tree, dirs: set<Inode>, n: Inode, walk: seq<Found>, exclude: string -> bool) {
    && (forall f :: f in walk ==> exists m :: m in dirs && Within(tree, n, m) && Named(tree, m, f.path))
    && (forall m :: m in dirs && Within(tree, n, m) ==>
          exists f :: f in walk && Named(tree, m, f.path) && (exclude(f.path) || f.wd >= 0))
  }

  /** Moved in, not watched itself, and all that is watched inside are directories that the filter lets pass. */
  ghost predicate Rescued(tree: Tree, dirs: set<Inode>, t: Table, at: Attachment, op: Op)
    requires Possible(tree, at, op) && op.Move? && t.watches.Keys == at.Keys
  {
    && MovedIn(tree, dirs, t, at, op)
    && WatchOf(at, op.n).None?
    && var exclude := t.watches[WatchOf(at, op.parent).value].exclude;
       forall d :: d in at && Within(tree, op.n, at[d]) ==> Passes(After(tree, op), dirs, at[d], exclude)
  }

  /** A directory whose path the filter lets pass. */
  ghost predicate Passes(tree: Tree, dirs: set<Inode>, n: Inode, exclude: string -> bool) {
    n in dirs && Placed(tree, n) && !exclude(PathStr(PathOf(tree, n)))
  }

  /** No record stands from earlier moves of these names, and the target is not named like a marked path. */
  ghost predicate NoLeftovers(tree: Tree, t: Table, op: Op)
    requires op.Move? && op.n in tree.entry && Placed(tree, op.n) && Placed(tree, op.parent)
  {
    && op.cookie !in t.cookies
    && PathStr(PathOf(tree, op.n)) !in t.moves
    && PathStr(PathOf(tree, op.parent) + [op.name]) !in t.moves
    && !EndsWith(op.name, UNKNOWN)
  }

  lemma WithinMoves(tree: Tree, n: Inode, parent: Inode, name: string, m: Inode)
    requires WellFormed(tree) && CanRename(tree, n, parent, name) && Within(tree, n, m)
    ensures Placed(tree, m) && PathOf(tree, n) <= PathOf(tree, m)
    ensures WellFormed(Rename(tree, n, parent, name)) && Within(Rename(tree, n, parent, name), n, m)
  {
    var src, p :| At(tree, n, src) && At(tree, m, p) && src <= p;
    NamedBy(tree, n, src);
    NamedBy(tree, m, p);
    var par := PathOf(tree, parent);
    RenameWellFormed(tree, n, parent, name);
    RenameMoves(tree, n, parent, name, src, par, n, src);
    RenameMoves(tree, n, parent, name, src, par, m, p);
    assert par + [name] <= MovedPath(src, par + [name], p);
  }

  lemma SameInode(tree: Tree, n: Inode, m: Inode, path: string)
    requires WellFormed(tree) && Named(tree, n, path) && Named(tree, m, path)
    ensures n == m
  {
    NamedBy(tree, n, PathOf(tree, n));
    NamedBy(tree, m, PathOf(tree, m));
    PathStrInjective(PathOf(tree, n), PathOf(tree, m));
    AtInjective(tree, n, m, PathOf(tree, n));
  }

  lemma NamedStored(tree: Tree, n: Inode, path: string)
    requires WellFormed(tree) && Named(tree, n, path)
    ensures NormPath(path) == path
  {
    NamedBy(tree, n, PathOf(tree, n));
    NormPathStored(PathOf(tree, n));
  }

  /** A watch inside the moved subtree is renewed exactly if it is on a directory that the filter lets pass. */
  lemma RenewedExactly(tree: Tree, dirs: set<Inode>, at: Attachment, at': Attachment, n: Inode,
                       walk: seq<Found>, exclude: string -> bool, d: Wd, path: string)
    requires WellFormed(tree) && Answered(tree, at, at', walk, exclude) && WalksAll(tree, dirs, n, walk, exclude)
    requires d in at && Within(tree, n, at[d]) && Named(tree, at[d], path)
    ensures AddedIn(walk, exclude, d) <==> at[d] in dirs && !exclude(path)
  {
    if AddedIn(walk, exclude, d) {
      var f :| f in walk && Added(f, exclude) && f.wd == d;
      var m :| m in dirs && Within(tree, n, m) && Named(tree, m, f.path);
      NamedStored(tree, m, f.path);
      SameInode(tree, at[d], m, f.path);
    }
    if at[d] in dirs && !exclude(path) {
      var f :| f in walk && Named(tree, at[d], f.path) && (exclude(f.path) || f.wd >= 0);
      NamedStored(tree, at[d], f.path);
      assert Added(f, exclude);
      SameInode(tree, at[d], at'[f.wd], f.path);
      assert AddedIn(walk, exclude, d);
    }
  }

  /** The table after a directory moved in was walked: right exactly for what was found or did not move. */
  lemma WalkedExactly(tree: Tree, t: Table, at: Attachment, op: Op, walk: seq<Found>, exclude: string -> bool,
                      at': Attachment, t': Table)
    requires Agrees(tree, t, at) && op.Move? && Possible(tree, at, op)
    requires t' == t.(watches := AddFound(t.watches, walk, exclude))
             && Answered(After(tree, op), at, at', walk, exclude)
    ensures t'.watches.Keys == at'.Keys
    ensures forall d :: d in at' && AddedIn(walk, exclude, d) ==> Named(After(tree, op), at'[d], t'.watches[d].path)
    ensures Agrees(After(tree, op), t', at') <==> forall d :: d in at && Within(tree, op.n, at[d]) ==>
              AddedIn(walk, exclude, d)
  {
    RenameWellFormed(tree, op.n, op.parent, op.name);
    WalkedNamed(After(tree, op), t.watches, at, walk, exclude, at');
    forall d | d in at && !AddedIn(walk, exclude, d)
      ensures Named(After(tree, op), at'[d], t'.watches[d].path) <==> !Within(tree, op.n, at[d])
    {
      NotWalked(tree, t, at, op, walk, exclude, t'.watches, d);
    }
    RightExactly(tree, After(tree, op), t', at, at', op.n, walk, exclude);
  }

  lemma WalkedNamed(tree: Tree, watches: map<Wd, Watch>, at: Attachment, walk: seq<Found>,
                    exclude: string -> bool, at': Attachment)
    requires watches.Keys == at.Keys && Answered(tree, at, at', walk, exclude)
    ensures var ws := AddFound(watches, walk, exclude);
            && ws.Keys == at'.Keys
            && forall d :: d in at' && AddedIn(walk, exclude, d) ==> Named(tree, at'[d], ws[d].path)
  {
    var ws := AddFound(watches, walk, exclude);
    forall d
      ensures (d in ws <==> d in at') && (d in at' && AddedIn(walk, exclude, d) ==> Named(tree, at'[d], ws[d].path))
    {
      WalkedAt(tree, watches, at, walk, exclude, at', ws, d);
    }
  }

  lemma WalkedAt(tree: Tree, watches: map<Wd, Watch>, at: Attachment, walk: seq<Found>, exclude: string -> bool,
                 at': Attachment, ws: map<Wd, Watch>, d: Wd)
    requires watches.Keys == at.Keys && Answered(tree, at, at', walk, exclude)
    requires ws == AddFound(watches, walk, exclude)
    ensures (d in ws <==> d in at') && (d in at' && AddedIn(walk, exclude, d) ==> Named(tree, at'[d], ws[d].path))
  {
    AddFoundAt(watches, walk, exclude, d);
    assert d in watches <==> d in at;
  }

  lemma NotWalked(tree: Tree, t: Table, at: Attachment, op: Op, walk: seq<Found>, exclude: string -> bool,
                  watches: map<Wd, Watch>, d: Wd)
    requires Agrees(tree, t, at) && op.Move? && Possible(tree, at, op)
    requires watches == AddFound(t.watches, walk, exclude) && d in at && !AddedIn(walk, exclude, d)
    ensures d in watches && (Named(After(tree, op), at[d], watches[d].path) <==> !Within(tree, op.n, at[d]))
  {
    AddFoundAt(t.watches, walk, exclude, d);
    MovedOrNot(tree, op.n, op.parent, op.name, at[d], t.watches[d].path);
  }

  lemma RightExactly(tree: Tree, tree': Tree, t: Table, at: Attachment, at': Attachment, n: Inode, walk: seq<Found>,
                     exclude: string -> bool)
    requires WellFormed(tree') && Answered(tree', at, at', walk, exclude) && t.watches.Keys == at'.Keys
    requires forall d :: d in at' && AddedIn(walk, exclude, d) ==> Named(tree', at'[d], t.watches[d].path)
    requires forall d :: d in at && !AddedIn(walk, exclude, d) ==>
               (Named(tree', at'[d], t.watches[d].path) <==> !Within(tree, n, at[d]))
    ensures Agrees(tree', t, at') <==> forall d :: d in at && Within(tree, n, at[d]) ==> AddedIn(walk, exclude, d)
  {
  }

  /** A path that was true stays true exactly outside the moved subtree. */
  lemma MovedOrNot(tree: Tree, n: Inode, parent: Inode, name: string, m: Inode, path: string)
    requires WellFormed(tree) && CanRename(tree, n, parent, name) && Named(tree, m, path)
    ensures WellFormed(Rename(tree, n, parent, name))
    ensures Named(Rename(tree, n, parent, name), m, path) <==> !Within(tree, n, m)
  {
    RenameWellFormed(tree, n, parent, name);
    if Within(tree, n, m) {
      MovedAway(tree, n, parent, name, m, path);
    } else {
      var p := PathOf(tree, m);
      assert !(PathOf(tree, n) <= p);
      RenameOutside(tree, n, parent, name, PathOf(tree, n), m, p);
      NamedBy(Rename(tree, n, parent, name), m, p);
    }
  }

  lemma InsideItself(tree: Tree, at: Attachment, n: Inode)
    requires Placed(tree, n) && WatchOf(at, n).Some?
    ensures WatchWithin(tree, at, n)
  {
    assert PathOf(tree, n) <= PathOf(tree, n);
    assert Within(tree, n, at[WatchOf(at, n).value]);
  }

  lemma PlainTo(tree: Tree, dirs: set<Inode>, t: Table, a: Table, at: Attachment, op: Op)
    requires Agrees(tree, t, at) && op.Move? && Possible(tree, at, op) && a.watches == t.watches
    requires WatchOf(at, tree.entry[op.n].parent).Some? ==> op.cookie in a.cookies
    requires !MovedIn(tree, dirs, t, at, op)
    ensures PlainAlong(a, ToEvent(dirs, at, op))
  {
    var to := ToEvent(dirs, at, op);
    if to != [] {
      var par := PathOf(tree, op.parent);
      WatchPath(tree, t, at, WatchOf(at, op.parent).value, par);
      ChildPath(par, op.name);
      assert to[1..] == [];
    }
  }

  lemma PlainMove(tree: Tree, dirs: set<Inode>, t: Table, at: Attachment, op: Op)
    requires Agrees(tree, t, at) && op.Move? && Possible(tree, at, op) && op.cookie !in t.cookies
    requires !MovedIn(tree, dirs, t, at, op)
    ensures PlainAlong(t, Emitted(tree, dirs, at, op))
  {
    var from, to, self := FromEvent(tree, at, op), ToEvent(dirs, at, op), SelfEvent(at, op);
    var a := Drain(t, from);
    FromRecorded(tree, t, at, op);
    PlainTo(tree, dirs, t, a, at, op);
    DrainConcat(t, from, to);
    PlainConcat(t, from, to);
    PlainConcat(t, from + to, self);
  }

  lemma PlainExactly(tree: Tree, dirs: set<Inode>, t: Table, at: Attachment, op: Op)
    requires Agrees(tree, t, at) && op.Move? && Possible(tree, at, op) && NoLeftovers(tree, t, op)
    ensures Agrees(After(tree, op), Drain(t, Emitted(tree, dirs, at, op)), at) <==> Tracked(tree, at, op)
  {
    var self := WatchOf(at, op.n);
    if self.Some? {
      InsideItself(tree, at, op.n);
    }
    if Tracked(tree, at, op) {
      MoveAgrees(tree, dirs, t, at, op);
    } else {
      var t' := MoveDelivered(tree, dirs, t, at, op);
      if self.Some? {
        DrainOne(t', MoveSelf(self.value));
        UnknownPathWrong(tree, t', at, op.n, op.parent, op.name, self.value);
      } else {
        var d :| d in at && Within(tree, op.n, at[d]);
        MovedAway(tree, op.n, op.parent, op.name, at[d], t.watches[d].path);
      }
    }
  }

  lemma MovedInHandled(tree: Tree, dirs: set<Inode>, t: Table, at: Attachment, op: Op, walk: seq<Found>)
    requires Agrees(tree, t, at) && op.Move? && Possible(tree, at, op) && op.cookie !in t.cookies
    requires MovedIn(tree, dirs, t, at, op)
    ensures var exclude := t.watches[WatchOf(at, op.parent).value].exclude;
            var t' := t.(watches := AddFound(t.watches, walk, exclude));
            && HandleAll(t, Emitted(tree, dirs, at, op), 0, walk) ==
               if WatchOf(at, op.n).Some? then Handle(t', MoveSelf(WatchOf(at, op.n).value), 0, walk) else t'
  {
    var par, d := PathOf(tree, op.parent), WatchOf(at, op.parent).value;
    WatchPath(tree, t, at, d, par);
    ChildPath(par, op.name);
    var es := Emitted(tree, dirs, at, op);
    assert es[0] == MovedTo(d, op.cookie, op.name, true);
    if WatchOf(at, op.n).Some? {
      assert es[1..] == [MoveSelf(WatchOf(at, op.n).value)];
      HandleOne(Handle(t, es[0], 0, walk), es[1], 0, walk);
    } else {
      assert es[1..] == [];
    }
  }

  lemma HandleOne(t: Table, e: Event, now: int, walk: seq<Found>)
    ensures HandleAll(t, [e], now, walk) == Handle(t, e, now, walk)
  {
    assert [e][1..] == [];
  }

  lemma MovedInExactly(tree: Tree, dirs: set<Inode>, t: Table, at: Attachment, op: Op, walk: seq<Found>,
                       at': Attachment)
    requires Agrees(tree, t, at) && op.Move? && Possible(tree, at, op) && NoLeftovers(tree, t, op)
    requires MovedIn(tree, dirs, t, at, op)
    requires var exclude := t.watches[WatchOf(at, op.parent).value].exclude;
             Answered(After(tree, op), at, at', walk, exclude) && WalksAll(After(tree, op), dirs, op.n, walk, exclude)
    ensures Agrees(After(tree, op), HandleAll(t, Emitted(tree, dirs, at, op), 0, walk), at')
       <==> Rescued(tree, dirs, t, at, op)
  {
    var exclude, self := t.watches[WatchOf(at, op.parent).value].exclude, WatchOf(at, op.n);
    var t' := t.(watches := AddFound(t.watches, walk, exclude));
    MovedInHandled(tree, dirs, t, at, op, walk);
    WalkedExactly(tree, t, at, op, walk, exclude, at', t');
    if self.Some? {
      MovedInSelf(tree, dirs, t', at, op, walk, exclude, at', self.value);
    } else {
      RenewedAll(tree, dirs, t, at, op, walk, exclude, at');
    }
  }

  lemma RenewedAll(tree: Tree, dirs: set<Inode>, t: Table, at: Attachment, op: Op,
                   walk: seq<Found>, exclude: string -> bool, at': Attachment)
    requires Agrees(tree, t, at) && op.Move? && Possible(tree, at, op)
    requires Answered(After(tree, op), at, at', walk, exclude) && WalksAll(After(tree, op), dirs, op.n, walk, exclude)
    ensures (forall d :: d in at && Within(tree, op.n, at[d]) ==> AddedIn(walk, exclude, d))
       <==> (forall d :: d in at && Within(tree, op.n, at[d]) ==> Passes(After(tree, op), dirs, at[d], exclude))
  {
    forall d | d in at && Within(tree, op.n, at[d])
      ensures AddedIn(walk, exclude, d) <==> Passes(After(tree, op), dirs, at[d], exclude)
    {
      WithinMoves(tree, op.n, op.parent, op.name, at[d]);
      var path := PathStr(PathOf(After(tree, op), at[d]));
      assert Named(After(tree, op), at[d], path);
      RenewedExactly(After(tree, op), dirs, at, at', op.n, walk, exclude, d, path);
    }
  }

  /** A directory moved in that is watched itself: renewed by the walk, and marked unknown right after. */
  lemma MovedInSelf(tree: Tree, dirs: set<Inode>, t: Table, at: Attachment, op: Op,
                    walk: seq<Found>, exclude: string -> bool, at': Attachment, self: Wd)
    requires WellFormed(tree) && op.Move? && Possible(tree, at, op) && op.n in dirs
    requires self in at && at[self] == op.n && t.watches.Keys == at'.Keys
    requires Answered(After(tree, op), at, at', walk, exclude) && WalksAll(After(tree, op), dirs, op.n, walk, exclude)
    requires AddedIn(walk, exclude, self) ==> Named(After(tree, op), op.n, t.watches[self].path)
    requires var dst := PathStr(PathOf(tree, op.parent) + [op.name]); !exclude(dst) && dst !in t.moves
    requires !EndsWith(op.name, UNKNOWN)
    ensures !Agrees(After(tree, op), Handle(t, MoveSelf(self), 0, walk), at')
  {
    var par := PathOf(tree, op.parent);
    var dst := PathStr(par + [op.name]);
    MovedSelf(tree, op.n, op.parent, op.name);
    RenameWellFormed(tree, op.n, op.parent, op.name);
    assert Within(tree, op.n, op.n) by {
      assert PathOf(tree, op.n) <= PathOf(tree, op.n);
    }
    WithinMoves(tree, op.n, op.parent, op.name, op.n);
    RenewedExactly(After(tree, op), dirs, at, at', op.n, walk, exclude, self, dst);
    assert t.watches[self].path == dst;
    NamedBy(tree, op.parent, par);
    TargetUnmarked(par, op.name);
    assert |dst + UNKNOWN| != |dst|;
    assert Handle(t, MoveSelf(self), 0, walk).watches[self].path == dst + UNKNOWN;
  }

  /**
   One rename, its events handled at once: the table agrees with the tree exactly when the move was tracked, or
   was a move in from a place not watched that the walk over the moved directory repairs.
   */
  lemma MoveAgreesExactly(tree: Tree, dirs: set<Inode>, t: Table, at: Attachment, op: Op, now: int,
                          walk: seq<Found>, at': Attachment)
    requires Agrees(tree, t, at) && op.Move? && Possible(tree, at, op) && NoLeftovers(tree, t, op)
    requires if MovedIn(tree, dirs, t, at, op) then
               var exclude := t.watches[WatchOf(at, op.parent).value].exclude;
               Answered(After(tree, op), at, at', walk, exclude) && WalksAll(After(tree, op), dirs, op.n, walk, exclude)
             else at' == at
    ensures Agrees(After(tree, op), HandleAll(t, Emitted(tree, dirs, at, op), now, walk), at')
       <==> Tracked(tree, at, op) || Rescued(tree, dirs, t, at, op)
  {
    var u, es := Undated(t), Emitted(tree, dirs, at, op);
    UndatedAll(t, es, now, walk);
    assert NoLeftovers(tree, u, op) && (MovedIn(tree, dirs, t, at, op) <==> MovedIn(tree, dirs, u, at, op));
    if MovedIn(tree, dirs, t, at, op) {
      MovedInExactly(tree, dirs, u, at, op, walk, at');
      NotTrackedIn(tree, dirs, u, at, op);
    } else {
      PlainMove(tree, dirs, u, at, op);
      PlainDrain(u, es, walk);
      PlainExactly(tree, dirs, u, at, op);
    }
  }

  /** A tracked move in has nothing watched inside, so it is repaired trivially. */
  lemma NotTrackedIn(tree: Tree, dirs: set<Inode>, t: Table, at: Attachment, op: Op)
    requires WellFormed(tree) && op.Move? && Possible(tree, at, op) && t.watches.Keys == at.Keys
             && MovedIn(tree, dirs, t, at, op)
    ensures Tracked(tree, at, op) ==> Rescued(tree, dirs, t, at, op)
  {
    if Tracked(tree, at, op) && WatchOf(at, op.n).Some? {
      InsideItself(tree, at, op.n);
    }
  }
}
