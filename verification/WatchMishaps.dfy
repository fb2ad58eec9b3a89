/** Short runs after which the watch table is wrong, although every event is handled. */
module WatchMishaps {
  import opened Sequences
  import opened Paths
  import opened FileTree
  import opened Watches
  import opened WatchTable
  import opened WatchTableRuns
  import opened Coalescing

  function All(): string -> bool {
    (path: string) => false
  }

  // ---- a watch is renewed at its new path while the events of its move are queued ----

  datatype Names = Names(w: string, d: string, x: string, a: string)

  predicate AllNames(n: Names) {
    ValidName(n.w) && ValidName(n.d) && ValidName(n.x) && ValidName(n.a) && n.d != n.x && !EndsWith(n.a, UNKNOWN)
  }

  /** /w, /w/d and /w/x */
  function Three(n: Names): Tree {
    Tree(0, map[1 := Entry(0, n.w), 2 := Entry(1, n.d), 3 := Entry(1, n.x)])
  }

  /** All of them are watched, with auto-add. */
  function Watched(): Attachment {
    map[1 := 1, 2 := 2, 3 := 3]
  }

  function TableOf(n: Names): Table {
    Table(map[1 := Watch(PathStr([n.w]), true, All()), 2 := Watch(PathStr([n.w, n.d]), true, All()),
              3 := Watch(PathStr([n.w, n.x]), true, All())],
          map[], map[])
  }

  lemma Watchers()
    ensures var at := Watched();
            OnePerInode(at) && WatchOf(at, 1) == Some(1) && WatchOf(at, 2) == Some(2) && WatchOf(at, 3) == Some(3)
              && WatchOf(at, 4) == None
  {
    var at := Watched();
    assert 1 in at && 2 in at && 3 in at;
  }

  lemma ThreePlaces(n: Names)
    requires AllNames(n)
    ensures var t := Three(n); WellFormed(t) && At(t, 1, [n.w]) && At(t, 2, [n.w, n.d]) && At(t, 3, [n.w, n.x])
  {
    var t := Three(n);
    assert At(t, 0, []);
    AtChild(t, 1, [], n.w);
    assert [] + [n.w] == [n.w] && [n.w] + [n.d] == [n.w, n.d] && [n.w] + [n.x] == [n.w, n.x];
    AtChild(t, 2, [n.w], n.d);
    AtChild(t, 3, [n.w], n.x);
  }

  lemma TableAgrees(n: Names)
    requires AllNames(n)
    ensures Agrees(Three(n), TableOf(n), Watched())
  {
    ThreePlaces(n);
    Watchers();
    NamedBy(Three(n), 1, [n.w]);
    NamedBy(Three(n), 2, [n.w, n.d]);
    NamedBy(Three(n), 3, [n.w, n.x]);
  }

  /** mkdir /w/d/a */
  function Make(n: Names): Op {
    New(4, 2, n.a, true)
  }

  /** mv /w/x /w/d/a */
  function MoveThere(n: Names): Op {
    Op.Move(3, 2, n.a, 1)
  }

  function Moved(n: Names): Tree {
    Rename(Three(n), 3, 2, n.a)
  }

  /** mkdir /w/d/a and rmdir /w/d/a leave the tree as it was. */
  lemma MadeAndGone(n: Names)
    requires AllNames(n)
    ensures var t := Three(n);
            && Possible(t, Watched(), Make(n))
            && var t1 := After(t, Make(n)); Possible(t1, Watched(), Gone(4)) && After(t1, Gone(4)) == t
  {
    var t := Three(n);
    ThreePlaces(n);
    Watchers();
    assert CanCreate(t, 4, 2, n.a);
    var t1 := After(t, Make(n));
    assert CanDelete(t1, 4);
    assert After(t1, Gone(4)).entry == t.entry;
  }

  lemma CanMove(n: Names)
    requires AllNames(n)
    ensures Possible(Three(n), Watched(), MoveThere(n)) && Tracked(Three(n), Watched(), MoveThere(n))
  {
    ThreePlaces(n);
    Watchers();
    NotWithin(Three(n), 3, 2, [n.w, n.x], [n.w, n.d]);
  }

  lemma MovedPlace(n: Names)
    requires AllNames(n)
    ensures WellFormed(Moved(n)) && Named(Moved(n), 3, PathStr([n.w, n.d] + [n.a]))
  {
    CanMove(n);
    ThreePlaces(n);
    NamedBy(Three(n), 2, [n.w, n.d]);
    RenameWellFormed(Three(n), 3, 2, n.a);
    MovedSelf(Three(n), 3, 2, n.a);
  }

  function Events(n: Names, isDir: bool): seq<Event> {
    [MovedFrom(1, 1, n.x), MovedTo(2, 1, n.a, isDir), MoveSelf(3)]
  }

  function Start(n: Names, dirs: set<Inode>): State {
    State(Three(n), dirs, Watched(), [], TableOf(n), [], false, {})
  }

  /** Everything is done, and every event read. */
  function AllRead(n: Names, dirs: set<Inode>): State {
    State(Moved(n), dirs - {4}, Watched(), [],
          TableOf(n), [Created(2, n.a, true)] + Events(n, 3 in dirs - {4}), false, {})
  }

  function Steps(n: Names): seq<Step> {
    [Fs(Make(n))] + [Fs(Gone(4))] + [Fs(MoveThere(n))] + [Read(4)]
  }

  lemma MakeSteps(n: Names, dirs: set<Inode>, s: State)
    requires AllNames(n) && s == Start(n, dirs)
    ensures Legal(s, Fs(Make(n))) && Smooth(s, Fs(Make(n)))
    ensures var s1 := Next(s, Fs(Make(n)));
            && Legal(s1, Fs(Gone(4))) && Smooth(s1, Fs(Gone(4)))
            && Next(s1, Fs(Gone(4))) == s.(dirs := dirs - {4}, kernel := [Created(2, n.a, true)])
  {
    MadeAndGone(n);
    Watchers();
    assert [] + [Created(2, n.a, true)] + [] == [Created(2, n.a, true)];
    assert dirs + {4} - {4} == dirs - {4};
  }

  lemma MoveStep(n: Names, s: State)
    requires AllNames(n) && s.tree == Three(n) && s.at == Watched()
    ensures Legal(s, Fs(MoveThere(n))) && Smooth(s, Fs(MoveThere(n)))
    ensures Next(s, Fs(MoveThere(n))) == s.(tree := Moved(n), kernel := s.kernel + Events(n, 3 in s.dirs))
  {
    CanMove(n);
    Watchers();
    assert Emitted(s.tree, s.dirs, s.at, MoveThere(n)) == Events(n, 3 in s.dirs);
  }

  lemma SmoothSoFar(n: Names, dirs: set<Inode>)
    requires AllNames(n)
    ensures OnCourse(Start(n, dirs)) && ValidRun(Start(n, dirs), Steps(n))
    ensures Run(Start(n, dirs), Steps(n)) == AllRead(n, dirs)
  {
    var s0, s4 := Start(n, dirs), AllRead(n, dirs);
    TableAgrees(n);
    assert Undated(TableOf(n)) == TableOf(n);
    MakeSteps(n, dirs, s0);
    var s2 := s0.(dirs := dirs - {4}, kernel := [Created(2, n.a, true)]);
    MoveStep(n, s2);
    var s3 := s4.(kernel := s4.queue, queue := []);
    ReadAll(s3);
    assert [] + s3.kernel == s3.kernel && |s3.kernel| == 4;
    RunFour(s0, Fs(Make(n)), Fs(Gone(4)), Fs(MoveThere(n)), Read(4));
  }

  lemma DrainThree(t: Table, a: Event, b: Event, c: Event)
    ensures Drain(t, [a, b, c]) == Handle(Handle(Handle(t, a, 0, []), b, 0, []), c, 0, [])
  {
    assert [a, b, c][1..] == [b, c] && [b, c][1..] == [c];
    DrainOne(Handle(Handle(t, a, 0, []), b, 0, []), c);
  }

  /** The table after the watch was renewed at /w/d/a. */
  function Renewed(n: Names): Table {
    TableOf(n).(watches := TableOf(n).watches[3 := Watch(PathStr([n.w, n.d] + [n.a]), true, All())])
  }

  lemma CreateRenews(n: Names)
    requires AllNames(n)
    ensures var t, e, path := TableOf(n), Created(2, n.a, true), PathStr([n.w, n.d] + [n.a]);
            && AddingPath(t, e) == Some(path) && NormPath(path) == path
            && Handle(t, e, 0, [Found(path, 3)]) == Renewed(n)
  {
    ChildPath([n.w, n.d], n.a);
    NormPathStored([n.w, n.d] + [n.a]);
    AddOne(TableOf(n).watches, PathStr([n.w, n.d] + [n.a]), 3, All());
  }

  /** MOVE_SELF looks for a record of the new path, finds none, and marks the path unknown. */
  lemma MarkedUnknown(n: Names, isDir: bool)
    requires AllNames(n)
    ensures var t := Drain(Renewed(n), Events(n, isDir));
            3 in t.watches && t.watches[3].path == PathStr([n.w, n.d] + [n.a]) + UNKNOWN
  {
    var e := Events(n, isDir);
    var src, path := PathStr([n.w] + [n.x]), PathStr([n.w, n.d] + [n.a]);
    DrainThree(Renewed(n), e[0], e[1], e[2]);
    ChildPath([n.w], n.x);
    var t1 := Handle(Renewed(n), e[0], 0, []);
    assert t1.watches == Renewed(n).watches && t1.moves == map[] && t1.cookies.Keys == {1} && t1.cookies[1].path == src;
    var t2 := Handle(t1, e[1], 0, []);
    assert t2.watches == t1.watches && t2.moves.Keys == {src};
    TargetUnmarked([n.w, n.d], n.a);
    if src == path {
      PathStrInjective([n.w] + [n.x], [n.w, n.d] + [n.a]);
    }
  }

  lemma RenewedLegal(n: Names, rest: seq<Event>)
    requires AllNames(n)
    ensures Adding(Moved(n), TableOf(n), Watched(), Created(2, n.a, true), rest,
                   [Found(PathStr([n.w, n.d] + [n.a]), 3)], Watched())
  {
    var walk := [Found(PathStr([n.w, n.d] + [n.a]), 3)];
    CreateRenews(n);
    MovedPlace(n);
    Watchers();
    assert walk[0] in walk && Added(walk[0], All());
    assert forall d :: AddedIn(walk, All(), d) <==> d == 3;
  }

  /**
   mkdir /w/d/a, rmdir /w/d/a, mv /w/x /w/d/a, and only then the events: CREATE renews the watch of /w/x at its new
   path, and the MOVE_SELF still queued marks that path unknown.
   */
  lemma RenewedWatch(n: Names, dirs: set<Inode>, now: int)
    requires AllNames(n)
    ensures var s := AllRead(n, dirs);
            var take := Take(Answer(now, [Found(PathStr([n.w, n.d] + [n.a]), 3)], []), Watched());
            OnCourse(s) && Legal(s, take) && !OnCourse(Next(s, take))
  {
    SmoothSoFar(n, dirs);
    RunOnCourse(Start(n, dirs), Steps(n));
    TakeGoesWrong(n, AllRead(n, dirs), Answer(now, [Found(PathStr([n.w, n.d] + [n.a]), 3)], []), 3 in dirs - {4});
  }

  lemma TakeGoesWrong(n: Names, s: State, a: Answer, isDir: bool)
    requires AllNames(n) && s.tree == Moved(n) && s.at == Watched() && s.table == TableOf(n) && s.kernel == []
    requires s.queue == [Created(2, n.a, true)] + Events(n, isDir)
    requires a.walk == [Found(PathStr([n.w, n.d] + [n.a]), 3)] && a.inner == []
    ensures Legal(s, Take(a, Watched())) && !OnCourse(Next(s, Take(a, Watched())))
  {
    var path := PathStr([n.w, n.d] + [n.a]);
    assert Rest(s) == Events(n, isDir);
    CreateRenews(n);
    RenewedLegal(n, Rest(s));
    MarkedUnknown(n, isDir);
    MovedPlace(n);
    assert |path + UNKNOWN| != |path|;
    assert Undated(TableOf(n)) == TableOf(n);
    OffCourse(s, a, Watched(), 3);
  }

  // ---- a directory is moved twice, and the second MOVE_SELF is taken for the first ----

  datatype Places = Places(w: string, a: string, b: string, c: string)

  predicate AllPlaces(p: Places) {
    ValidName(p.w) && ValidName(p.a) && ValidName(p.b) && ValidName(p.c) && p.a != p.b && p.b != p.c
  }

  /** /w and, in it, a directory of a given name. */
  function Two(w: string, name: string): Tree {
    Tree(0, map[1 := Entry(0, w), 2 := Entry(1, name)])
  }

  lemma TwoPlaces(w: string, name: string)
    requires ValidName(w) && ValidName(name)
    ensures var t := Two(w, name); WellFormed(t) && At(t, 1, [w]) && At(t, 2, [w, name])
  {
    var t := Two(w, name);
    assert At(t, 0, []);
    AtChild(t, 1, [], w);
    assert [] + [w] == [w] && [w] + [name] == [w, name];
    AtChild(t, 2, [w], name);
  }

  function Both(): Attachment {
    map[1 := 1, 2 := 2]
  }

  lemma BothWatch()
    ensures OnePerInode(Both()) && WatchOf(Both(), 1) == Some(1) && WatchOf(Both(), 2) == Some(2)
  {
    assert 1 in Both() && 2 in Both();
  }

  function TwoTable(p: Places): Table {
    Table(map[1 := Watch(PathStr([p.w]), false, All()), 2 := Watch(PathStr([p.w, p.a]), false, All())], map[], map[])
  }

  /** mv of the directory in /w to another name */
  function RenameTo(name: string, cookie: nat): Op {
    Op.Move(2, 1, name, cookie)
  }

  lemma CanRenameTwo(w: string, from: string, to: string, cookie: nat)
    requires ValidName(w) && ValidName(from) && ValidName(to) && from != to
    ensures var t, op := Two(w, from), RenameTo(to, cookie);
            && Possible(t, Both(), op) && Tracked(t, Both(), op) && After(t, op) == Two(w, to)
  {
    TwoPlaces(w, from);
    BothWatch();
    NotWithin(Two(w, from), 2, 1, [w, from], [w]);
    assert After(Two(w, from), RenameTo(to, cookie)).entry == Two(w, to).entry;
  }

  function MoveList(from: string, to: string, cookie: nat, isDir: bool): seq<Event> {
    [MovedFrom(1, cookie, from), MovedTo(1, cookie, to, isDir)] + [MoveSelf(2)]
  }

  lemma MoveSends(w: string, from: string, to: string, cookie: nat, dirs: set<Inode>)
    requires ValidName(w) && ValidName(from) && ValidName(to) && from != to
    ensures var t, op := Two(w, from), RenameTo(to, cookie);
            Possible(t, Both(), op) && Emitted(t, dirs, Both(), op) == MoveList(from, to, cookie, 2 in dirs)
  {
    CanRenameTwo(w, from, to, cookie);
    BothWatch();
  }

  /** mv /w/a /w/b and mv /w/b /w/c, with coalescing on and nothing read yet. */
  function Twice(p: Places, dirs: set<Inode>): State {
    State(Two(p.w, p.c), dirs, Both(), MoveList(p.a, p.b, 1, 2 in dirs) + MoveList(p.b, p.c, 2, 2 in dirs),
          TwoTable(p), [], true, {})
  }

  lemma TwiceReached(p: Places, dirs: set<Inode>)
    requires AllPlaces(p)
    ensures var s0 := Twice(p, dirs).(tree := Two(p.w, p.a), kernel := []);
            && OnCourse(s0) && Legal(s0, Fs(RenameTo(p.b, 1))) && Smooth(s0, Fs(RenameTo(p.b, 1)))
            && var s1 := Next(s0, Fs(RenameTo(p.b, 1)));
               && Legal(s1, Fs(RenameTo(p.c, 2))) && Smooth(s1, Fs(RenameTo(p.c, 2)))
               && Next(s1, Fs(RenameTo(p.c, 2))) == Twice(p, dirs)
  {
    CanRenameTwo(p.w, p.a, p.b, 1);
    CanRenameTwo(p.w, p.b, p.c, 2);
    MoveSends(p.w, p.a, p.b, 1, dirs);
    MoveSends(p.w, p.b, p.c, 2, dirs);
    TwoAgrees(p);
    assert Undated(TwoTable(p)) == TwoTable(p);
    assert [] + MoveList(p.a, p.b, 1, 2 in dirs) == MoveList(p.a, p.b, 1, 2 in dirs);
  }

  lemma TwoAgrees(p: Places)
    requires AllPlaces(p)
    ensures Agrees(Two(p.w, p.a), TwoTable(p), Both())
  {
    TwoPlaces(p.w, p.a);
    BothWatch();
    NamedBy(Two(p.w, p.a), 1, [p.w]);
    NamedBy(Two(p.w, p.a), 2, [p.w, p.a]);
  }

  /** What coalescing leaves of the six events. */
  function Kept(p: Places, isDir: bool): seq<Event> {
    MoveList(p.a, p.b, 1, isDir) + [MovedFrom(1, 2, p.b), MovedTo(1, 2, p.c, isDir)]
  }

  lemma {:induction false} AllFirst(es: seq<Event>)
    requires forall i, j :: 0 <= i < j < |es| ==> es[i] != es[j]
    ensures FirstOnly(Itself, {}, es) == es
    decreases |es|
  {
    if es != [] {
      var front, last := es[..|es| - 1], es[|es| - 1];
      assert es == front + [last];
      AllFirst(front);
      FirstOnlyStep(Itself, {}, front, last);
    }
  }

  lemma SecondDropped(p: Places, isDir: bool)
    ensures FirstOnly(Itself, {}, MoveList(p.a, p.b, 1, isDir) + MoveList(p.b, p.c, 2, isDir)) == Kept(p, isDir)
  {
    var kept := Kept(p, isDir);
    assert MoveList(p.a, p.b, 1, isDir) + MoveList(p.b, p.c, 2, isDir) == kept + [MoveSelf(2)];
    AllFirst(kept);
    FirstOnlyStep(Itself, {}, kept, MoveSelf(2));
    assert kept[2] == MoveSelf(2) && kept[2] in kept;
    assert kept + [] == kept;
  }

  /** The table is left at the first destination. */
  lemma LeftBehind(p: Places, dirs: set<Inode>)
    requires AllPlaces(p)
    ensures var t := Drain(TwoTable(p), Kept(p, 2 in dirs)); 2 in t.watches && t.watches[2].path == PathStr([p.w, p.b])
  {
    var t, op, op2 := TwoTable(p), RenameTo(p.b, 1), RenameTo(p.c, 2);
    var es, more := MoveList(p.a, p.b, 1, 2 in dirs), [MovedFrom(1, 2, p.b), MovedTo(1, 2, p.c, 2 in dirs)];
    TwoAgrees(p);
    CanRenameTwo(p.w, p.a, p.b, 1);
    MoveSends(p.w, p.a, p.b, 1, dirs);
    MoveAgrees(Two(p.w, p.a), dirs, t, Both(), op);
    DrainConcat(t, es, more);
    TwoPlaces(p.w, p.b);
    NamedBy(Two(p.w, p.b), 2, [p.w, p.b]);
    RecordsOnly(Drain(t, es), more[0], more[1], 2);
  }

  /** The first two events of a rename change no path. */
  lemma RecordsOnly(t: Table, from: Event, to: Event, d: Wd)
    requires from.MovedFrom? && to.MovedTo? && from.cookie == to.cookie && from.wd in t.watches && to.wd in t.watches
    requires d in t.watches
    ensures var t' := Drain(t, [from, to]); d in t'.watches && t'.watches[d].path == t.watches[d].path
  {
    assert [from, to][1..] == [to];
    DrainOne(Handle(t, from, 0, []), to);
  }

  /** With coalescing, two moves in one batch leave the watch at the first destination. */
  lemma RepeatedMove(p: Places, dirs: set<Inode>)
    requires AllPlaces(p)
    ensures var s := Twice(p, dirs); OnCourse(s) && Legal(s, Read(6)) && !OnCourse(Next(s, Read(6)))
  {
    var s, isDir := Twice(p, dirs), 2 in dirs;
    var s0 := s.(tree := Two(p.w, p.a), kernel := []);
    TwiceReached(p, dirs);
    FsOnCourse(s0, RenameTo(p.b, 1));
    FsOnCourse(Next(s0, Fs(RenameTo(p.b, 1))), RenameTo(p.c, 2));
    ReadGoesWrong(p, dirs, s, Kept(p, isDir));
  }

  lemma ReadGoesWrong(p: Places, dirs: set<Inode>, s: State, kept: seq<Event>)
    requires AllPlaces(p) && s == Twice(p, dirs) && kept == Kept(p, 2 in dirs)
    ensures Legal(s, Read(6)) && !OnCourse(Next(s, Read(6)))
  {
    BatchRead(p, dirs, s, kept);
    LeftBehind(p, dirs);
    assert Undated(TwoTable(p)) == TwoTable(p);
    LastPlace(p);
  }

  lemma BatchRead(p: Places, dirs: set<Inode>, s: State, kept: seq<Event>)
    requires AllPlaces(p) && s == Twice(p, dirs) && kept == Kept(p, 2 in dirs)
    ensures Legal(s, Read(6))
    ensures var s' := Next(s, Read(6));
            s'.tree == s.tree && s'.at == Both() && s'.table == TwoTable(p) && Pending(s') == kept
  {
    assert |s.kernel| == 6 && s.kernel[..6] == s.kernel && s.kernel[6..] == [];
    SecondDropped(p, 2 in dirs);
    assert [] + kept + [] == kept;
  }

  lemma LastPlace(p: Places)
    requires AllPlaces(p)
    ensures !Named(Two(p.w, p.c), 2, PathStr([p.w, p.b]))
  {
    TwoPlaces(p.w, p.c);
    NamedBy(Two(p.w, p.c), 2, [p.w, p.c]);
    var b, c := [p.w, p.b], [p.w, p.c];
    assert b[1] == p.b && c[1] == p.c;
    if PathStr(b) == PathStr(c) {
      PathStrInjective(b, c);
    }
  }

  // ---- a directory whose parent is not watched ----

  /** The directory alone is watched. */
  function Alone(): Attachment {
    map[2 := 2]
  }

  /** mv /w/a /w/b with a watch on /w/a only: its path is wrong afterwards. */
  lemma UntrackedRename(p: Places, dirs: set<Inode>, now: int, walk: seq<Found>)
    requires AllPlaces(p) && !EndsWith(p.b, UNKNOWN)
    ensures var t, op := Two(p.w, p.a), RenameTo(p.b, 1);
            var table := Table(map[2 := Watch(PathStr([p.w, p.a]), true, All())], map[], map[]);
            && Agrees(t, table, Alone()) && Possible(t, Alone(), op)
            && !Agrees(After(t, op), HandleAll(table, Emitted(t, dirs, Alone(), op), now, walk), Alone())
  {
    var t, op, at := Two(p.w, p.a), RenameTo(p.b, 1), Alone();
    var table := Table(map[2 := Watch(PathStr([p.w, p.a]), true, All())], map[], map[]);
    TwoPlaces(p.w, p.a);
    CanRenameTwo(p.w, p.a, p.b, 1);
    NamedBy(t, 1, [p.w]);
    NamedBy(t, 2, [p.w, p.a]);
    assert 2 in at && forall d :: d in at ==> at[d] == 2;
    InsideItself(t, at, 2);
    MoveAgreesExactly(t, dirs, table, at, op, now, walk, at);
  }
}
