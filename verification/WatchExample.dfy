/** A run of the watch table that goes wrong: a directory is replaced before the event of its creation is handled. */
module ReplacedDirectories {
  import opened Sequences
  import opened Paths
  import opened FileTree
  import opened Watches
  import opened WatchTable
  import opened WatchTableRuns

  datatype Names = Names(w: string, d: string, v: string, x: string, a: string, e: string)

  predicate AllNames(n: Names) {
    && ValidName(n.w) && ValidName(n.d) && ValidName(n.v) && ValidName(n.x) && ValidName(n.a) && ValidName(n.e)
    && n.w != n.v && n.d != n.e
  }

  /** /w, /w/d, /v, /v/x and /v/x/a, and after mkdir also /w/d/a. */
  function TreeBefore(n: Names): Tree {
    Tree(0, map[1 := Entry(0, n.w), 2 := Entry(1, n.d), 3 := Entry(0, n.v), 4 := Entry(3, n.x), 5 := Entry(4, n.a)])
  }

  /** /w and /w/d are watched with auto-add, /v without. */
  function WatchedBefore(): Attachment {
    map[1 := 1, 2 := 2, 3 := 3]
  }

  lemma WatchersBefore()
    ensures var at := WatchedBefore();
            && OnePerInode(at)
            && WatchOf(at, 1) == Some(1) && WatchOf(at, 2) == Some(2) && WatchOf(at, 3) == Some(3)
              && WatchOf(at, 4) == None
  {
    var at := WatchedBefore();
    assert 1 in at && 2 in at && 3 in at;
  }

  function TableBefore(n: Names): Table {
    var all := (path: string) => false;
    Table(map[1 := Watch(PathStr([n.w]), true, all), 2 := Watch(PathStr([n.w, n.d]), true, all),
              3 := Watch(PathStr([n.v]), false, all)],
          map[], map[])
  }

  /** Where the inodes are, /w/d and /v/x standing for wherever they are moved. */
  ghost predicate Places(t: Tree, w: seq<string>, d: seq<string>, v: seq<string>, x: seq<string>, a: string) {
    && WellFormed(t)
    && At(t, 1, w) && At(t, 2, d) && At(t, 3, v) && At(t, 4, x) && At(t, 5, x + [a])
  }

  lemma BeforeIsTree(n: Names)
    requires AllNames(n)
    ensures Places(TreeBefore(n), [n.w], [n.w, n.d], [n.v], [n.v, n.x], n.a)
  {
    var t := TreeBefore(n);
    assert At(t, 0, []);
    AtChild(t, 1, [], n.w);
    AtChild(t, 3, [], n.v);
    assert [] + [n.w] == [n.w] && [] + [n.v] == [n.v];
    AtChild(t, 2, [n.w], n.d);
    AtChild(t, 4, [n.v], n.x);
    assert [n.w] + [n.d] == [n.w, n.d] && [n.v] + [n.x] == [n.v, n.x];
    AtChild(t, 5, [n.v, n.x], n.a);
  }

  /** mkdir /w/d/a */
  function Mkdir(n: Names): Op {
    New(6, 2, n.a, true)
  }

  /** mv /w/d /w/e */
  function MoveAway(n: Names): Op {
    Op.Move(2, 1, n.e, 1)
  }

  /** mv /v/x /w/d */
  function MoveIn(n: Names): Op {
    Op.Move(4, 1, n.d, 2)
  }

  lemma MkdirTree(n: Names, t: Tree)
    requires AllNames(n) && t == TreeBefore(n)
    ensures Possible(t, WatchedBefore(), Mkdir(n)) && Tracked(t, WatchedBefore(), Mkdir(n))
    ensures Places(After(t, Mkdir(n)), [n.w], [n.w, n.d], [n.v], [n.v, n.x], n.a)
    ensures At(After(t, Mkdir(n)), 6, [n.w, n.d] + [n.a])
  {
    BeforeIsTree(n);
    CreateWellFormed(t, 6, 2, n.a);
    CreateKeeps(t, 6, 2, n.a, 1, [n.w]);
    CreateKeeps(t, 6, 2, n.a, 2, [n.w, n.d]);
    CreateKeeps(t, 6, 2, n.a, 3, [n.v]);
    CreateKeeps(t, 6, 2, n.a, 4, [n.v, n.x]);
    CreateKeeps(t, 6, 2, n.a, 5, [n.v, n.x] + [n.a]);
    AtChild(After(t, Mkdir(n)), 6, [n.w, n.d], n.a);
  }

  lemma MoveAwayTree(n: Names, t: Tree, at: Attachment)
    requires AllNames(n) && t == After(TreeBefore(n), Mkdir(n)) && WatchOf(at, 1).Some? && WatchOf(at, 2).Some?
    ensures Possible(t, at, MoveAway(n)) && Tracked(t, at, MoveAway(n))
    ensures Places(After(t, MoveAway(n)), [n.w], [n.w, n.e], [n.v], [n.v, n.x], n.a)
    ensures At(After(t, MoveAway(n)), 6, [n.w, n.e] + [n.a])
  {
    MkdirTree(n, TreeBefore(n));
    var src, w := [n.w, n.d], [n.w];
    NotWithin(t, 2, 1, src, w);
    assert w + [n.e] == [n.w, n.e];
    RenameWellFormed(t, 2, 1, n.e);
    RenameTop(t, 2, 1, n.e, src, w);
    RenameOutside(t, 2, 1, n.e, src, 1, w);
    RenameOutside(t, 2, 1, n.e, src, 3, [n.v]);
    assert src[0] != [n.v, n.x][0];
    RenameOutside(t, 2, 1, n.e, src, 4, [n.v, n.x]);
    RenameOutside(t, 2, 1, n.e, src, 5, [n.v, n.x] + [n.a]);
    RenameMoves(t, 2, 1, n.e, src, w, 6, src + [n.a]);
    assert MovedPath(src, w + [n.e], src + [n.a]) == [n.w, n.e] + [n.a];
  }

  lemma NothingInside(n: Names, t: Tree)
    requires AllNames(n) && Places(t, [n.w], [n.w, n.e], [n.v], [n.v, n.x], n.a) && At(t, 6, [n.w, n.e] + [n.a])
    ensures !Within(t, 4, 1) && !Within(t, 4, 2) && !Within(t, 4, 3) && !Within(t, 4, 6)
  {
    var src := [n.v, n.x];
    assert src[0] != [n.w][0] && src[0] != [n.w, n.e][0] && src[0] != ([n.w, n.e] + [n.a])[0];
    NotWithin(t, 4, 1, src, [n.w]);
    NotWithin(t, 4, 2, src, [n.w, n.e]);
    NotWithin(t, 4, 3, src, [n.v]);
    NotWithin(t, 4, 6, src, [n.w, n.e] + [n.a]);
  }

  lemma MoveInAllowed(n: Names, t: Tree, at: Attachment)
    requires AllNames(n) && t == After(After(TreeBefore(n), Mkdir(n)), MoveAway(n))
    requires at.Values <= {1, 2, 3, 6}
    ensures Possible(t, at, MoveIn(n)) && Tracked(t, at, MoveIn(n))
    ensures Places(t, [n.w], [n.w, n.e], [n.v], [n.v, n.x], n.a) && At(t, 6, [n.w, n.e] + [n.a])
  {
    WatchersBefore();
    MoveAwayTree(n, After(TreeBefore(n), Mkdir(n)), WatchedBefore());
    NothingInside(n, t);
    forall d | d in at
      ensures !Within(t, 4, at[d])
    {
      assert at[d] in at.Values;
    }
  }

  lemma MoveInTree(n: Names, t: Tree)
    requires AllNames(n) && t == After(After(TreeBefore(n), Mkdir(n)), MoveAway(n))
    ensures WellFormed(After(t, MoveIn(n)))
    ensures At(After(t, MoveIn(n)), 5, [n.w, n.d] + [n.a]) && At(After(t, MoveIn(n)), 6, [n.w, n.e] + [n.a])
  {
    MoveInAllowed(n, t, WatchedBefore());
    MovedTree(n, t);
  }

  lemma MovedTree(n: Names, t: Tree)
    requires AllNames(n) && Places(t, [n.w], [n.w, n.e], [n.v], [n.v, n.x], n.a) && At(t, 6, [n.w, n.e] + [n.a])
    requires CanRename(t, 4, 1, n.d)
    ensures var t' := Rename(t, 4, 1, n.d);
            WellFormed(t') && At(t', 5, [n.w, n.d] + [n.a]) && At(t', 6, [n.w, n.e] + [n.a])
  {
    var src, w, kept := [n.v, n.x], [n.w], [n.w, n.e] + [n.a];
    assert src[0] != kept[0];
    RenameWellFormed(t, 4, 1, n.d);
    RenameOutside(t, 4, 1, n.d, src, 6, kept);
    RenameMoves(t, 4, 1, n.d, src, w, 5, src + [n.a]);
    assert MovedPath(src, w + [n.d], src + [n.a]) == [n.w, n.d] + [n.a];
  }

  lemma BeforeAgrees(n: Names)
    requires AllNames(n)
    ensures Agrees(TreeBefore(n), TableBefore(n), WatchedBefore())
  {
    BeforeIsTree(n);
    NamedBy(TreeBefore(n), 1, [n.w]);
    NamedBy(TreeBefore(n), 2, [n.w, n.d]);
    NamedBy(TreeBefore(n), 3, [n.v]);
  }

  /** Descriptor 4 on the directory that was made. */
  function WatchedOther(): Attachment {
    WatchedBefore()[4 := 6]
  }

  lemma WatchersOther()
    ensures var at := WatchedOther();
            && OnePerInode(at) && at.Values <= {1, 2, 3, 6} && WatchedBefore().Values <= {1, 2, 3, 6}
            && WatchOf(at, 1) == Some(1) && WatchOf(at, 2) == Some(2) && WatchOf(at, 3) == Some(3)
              && WatchOf(at, 4) == None
  {
    var at := WatchedOther();
    assert 1 in at && 2 in at && 3 in at && 4 in at;
  }

  lemma Allowed(n: Names, at: Attachment)
    requires AllNames(n) && (at == WatchedBefore() || at == WatchedOther())
    ensures var t1 := After(TreeBefore(n), Mkdir(n));
            var t2 := After(t1, MoveAway(n));
            && Possible(t1, at, MoveAway(n)) && Tracked(t1, at, MoveAway(n))
            && Possible(t2, at, MoveIn(n)) && Tracked(t2, at, MoveIn(n))
  {
    WatchersBefore();
    WatchersOther();
    MoveAwayTree(n, After(TreeBefore(n), Mkdir(n)), at);
    MoveInAllowed(n, After(After(TreeBefore(n), Mkdir(n)), MoveAway(n)), at);
  }

  /** The events of the two moves. */
  ghost function MoveEvents(n: Names, dirs: set<Inode>, at: Attachment): seq<Event>
    requires AllNames(n) && (at == WatchedBefore() || at == WatchedOther())
  {
    var t1 := After(TreeBefore(n), Mkdir(n));
    Allowed(n, at);
    Emitted(t1, dirs, at, MoveAway(n)) + Emitted(After(t1, MoveAway(n)), dirs, at, MoveIn(n))
  }

  function EventList(n: Names, dirs: set<Inode>): seq<Event> {
    [MovedFrom(1, 1, n.d), MovedTo(1, 1, n.e, 2 in dirs), MoveSelf(2)] +
        [MovedFrom(3, 2, n.x), MovedTo(1, 2, n.d, 4 in dirs)]
  }

  lemma EventsAre(n: Names, dirs: set<Inode>, at: Attachment)
    requires AllNames(n) && (at == WatchedBefore() || at == WatchedOther())
    ensures MoveEvents(n, dirs, at) == EventList(n, dirs)
  {
    WatchersBefore();
    WatchersOther();
    Allowed(n, at);
    var t1 := After(TreeBefore(n), Mkdir(n));
    assert t1.entry[2] == Entry(1, n.d);
    assert After(t1, MoveAway(n)).entry[4] == Entry(3, n.x);
  }

  lemma NotFour(n: Names, dirs: set<Inode>)
    ensures forall e :: e in EventList(n, dirs) ==> e.wd != 4
  {
  }

  function TableAdded(n: Names): Table {
    var t := TableBefore(n);
    t.(watches := t.watches[4 := Watch(PathStr([n.w, n.d] + [n.a]), true, t.watches[2].exclude)])
  }

  lemma AddedAgrees(n: Names)
    requires AllNames(n)
    ensures Agrees(After(TreeBefore(n), Mkdir(n)), TableAdded(n), WatchedOther())
  {
    var t := After(TreeBefore(n), Mkdir(n));
    MkdirTree(n, TreeBefore(n));
    WatchersOther();
    AddedNames(n, t);
  }

  lemma AddedNames(n: Names, t: Tree)
    requires Places(t, [n.w], [n.w, n.d], [n.v], [n.v, n.x], n.a) && At(t, 6, [n.w, n.d] + [n.a])
    ensures Named(t, 1, PathStr([n.w])) && Named(t, 2, PathStr([n.w, n.d])) && Named(t, 3, PathStr([n.v]))
    ensures Named(t, 6, PathStr([n.w, n.d] + [n.a]))
  {
    NamedBy(t, 1, [n.w]);
    NamedBy(t, 2, [n.w, n.d]);
    NamedBy(t, 3, [n.v]);
    NamedBy(t, 6, [n.w, n.d] + [n.a]);
  }

  /** The watch added at /w/d/a follows the directory that was made there: to /w/e/a. */
  lemma FollowsTheOther(n: Names, dirs: set<Inode>)
    requires AllNames(n)
    ensures var t := Drain(TableAdded(n), MoveEvents(n, dirs, WatchedOther()));
            4 in t.watches && t.watches[4].path == PathStr([n.w, n.e] + [n.a])
  {
    var at, t := WatchedOther(), TableAdded(n);
    var t1 := After(TreeBefore(n), Mkdir(n));
    var t2 := After(t1, MoveAway(n));
    AddedAgrees(n);
    Allowed(n, at);
    MoveAgrees(t1, dirs, t, at, MoveAway(n));
    var es := Emitted(t1, dirs, at, MoveAway(n));
    MoveAgrees(t2, dirs, Drain(t, es), at, MoveIn(n));
    DrainConcat(t, es, Emitted(t2, dirs, at, MoveIn(n)));
    MoveInTree(n, t2);
    NamedBy(After(t2, MoveIn(n)), 6, [n.w, n.e] + [n.a]);
  }

  lemma CreatedPath(n: Names)
    requires AllNames(n)
    ensures var path := PathStr([n.w, n.d] + [n.a]);
            AddingPath(TableBefore(n), Created(2, n.a, true)) == Some(path) && NormPath(path) == path
  {
    ChildPath([n.w, n.d], n.a);
    NormPathStored([n.w, n.d] + [n.a]);
  }

  lemma CreatedAdds(n: Names)
    requires AllNames(n)
    ensures var t, e, path := TableBefore(n), Created(2, n.a, true), PathStr([n.w, n.d] + [n.a]);
            && AddingPath(t, e) == Some(path) && NormPath(path) == path
            && Handle(t, e, 0, [Found(path, 4)]) == TableAdded(n)
  {
    CreatedPath(n);
    AddOne(TableBefore(n).watches, PathStr([n.w, n.d] + [n.a]), 4, TableBefore(n).watches[2].exclude);
  }

  lemma CreatedLegal(n: Names, tree: Tree, rest: seq<Event>)
    requires AllNames(n) && WellFormed(tree) && At(tree, 5, [n.w, n.d] + [n.a])
    requires forall e :: e in rest ==> e.wd != 4
    ensures Adding(tree, TableBefore(n), WatchedBefore(), Created(2, n.a, true), rest,
                   [Found(PathStr([n.w, n.d] + [n.a]), 4)], WatchedBefore()[4 := 5])
  {
    var path := PathStr([n.w, n.d] + [n.a]);
    var walk, exclude := [Found(path, 4)], TableBefore(n).watches[2].exclude;
    CreatedAdds(n);
    NamedBy(tree, 5, [n.w, n.d] + [n.a]);
    assert walk[0] in walk && Added(walk[0], exclude);
    assert forall d :: AddedIn(walk, exclude, d) <==> d == 4;
  }

  lemma OtherPath(n: Names)
    requires AllNames(n)
    ensures PathStr([n.w, n.e] + [n.a]) != PathStr([n.w, n.d] + [n.a])
  {
    var p, q := [n.w, n.e] + [n.a], [n.w, n.d] + [n.a];
    assert p[1] == n.e && q[1] == n.d;
    if PathStr(p) == PathStr(q) {
      PathStrInjective(p, q);
    }
  }

  function StateBefore(n: Names, dirs: set<Inode>): State {
    State(TreeBefore(n), dirs, WatchedBefore(), [], TableBefore(n), [], false, {})
  }

  /** After the three operations, the events read. */
  ghost function StateAfter(n: Names, dirs: set<Inode>): State
    requires AllNames(n)
  {
    State(After(After(After(TreeBefore(n), Mkdir(n)), MoveAway(n)), MoveIn(n)), dirs + {6}, WatchedBefore(), [],
          TableBefore(n), [Created(2, n.a, true)] + MoveEvents(n, dirs + {6}, WatchedBefore()), false, {})
  }

  lemma FirstStep(n: Names, dirs: set<Inode>)
    requires AllNames(n)
    ensures var s, step := StateBefore(n, dirs), Fs(Mkdir(n));
            && Legal(s, step) && Smooth(s, step)
            && Next(s, step) == s.(tree := After(s.tree, Mkdir(n)), dirs := dirs + {6},
                                   kernel := [Created(2, n.a, true)])
  {
    MkdirTree(n, TreeBefore(n));
    WatchersBefore();
  }

  lemma MoveSteps(n: Names, dirs: set<Inode>, s: State)
    requires AllNames(n)
    requires s.tree == After(TreeBefore(n), Mkdir(n)) && s.at == WatchedBefore() && s.dirs == dirs
    ensures Legal(s, Fs(MoveAway(n))) && Smooth(s, Fs(MoveAway(n)))
    ensures var s2 := Next(s, Fs(MoveAway(n)));
            && Legal(s2, Fs(MoveIn(n))) && Smooth(s2, Fs(MoveIn(n)))
            && Next(s2, Fs(MoveIn(n))) == s.(tree := After(After(s.tree, MoveAway(n)), MoveIn(n)),
                                             kernel := s.kernel + MoveEvents(n, dirs, s.at))
  {
    Allowed(n, WatchedBefore());
    var e1, e2 := Emitted(s.tree, dirs, s.at, MoveAway(n)), Emitted(After(s.tree, MoveAway(n)), dirs, s.at, MoveIn(n));
    assert s.kernel + e1 + e2 == s.kernel + (e1 + e2);
  }

  /** The three operations, and then the events are read. */
  function Steps(n: Names): seq<Step> {
    [Fs(Mkdir(n))] + [Fs(MoveAway(n))] + [Fs(MoveIn(n))] + [Read(6)]
  }

  lemma ReadStep(n: Names, dirs: set<Inode>, s: State)
    requires AllNames(n) && !s.coalesce && s.queue == []
    requires s.kernel == [Created(2, n.a, true)] + MoveEvents(n, dirs, WatchedBefore())
    ensures Legal(s, Read(6)) && Smooth(s, Read(6)) && Next(s, Read(6)) == s.(kernel := [], queue := s.kernel)
  {
    EventsAre(n, dirs, WatchedBefore());
    ReadAll(s);
    assert |s.kernel| == 6 && [] + s.kernel == s.kernel;
  }

  lemma StartsOnCourse(n: Names, dirs: set<Inode>)
    requires AllNames(n)
    ensures OnCourse(StateBefore(n, dirs))
  {
    BeforeAgrees(n);
    assert Undated(TableBefore(n)) == TableBefore(n);
  }

  lemma ThreeSteps(n: Names, dirs: set<Inode>, s: State, s': State)
    requires AllNames(n) && s == StateBefore(n, dirs)
    requires var last := StateAfter(n, dirs); s' == last.(kernel := last.queue, queue := [])
    ensures Legal(s, Fs(Mkdir(n))) && Smooth(s, Fs(Mkdir(n)))
    ensures var s1 := Next(s, Fs(Mkdir(n))); Legal(s1, Fs(MoveAway(n))) && Smooth(s1, Fs(MoveAway(n)))
    ensures var s2 := Next(Next(s, Fs(Mkdir(n))), Fs(MoveAway(n)));
            Legal(s2, Fs(MoveIn(n))) && Smooth(s2, Fs(MoveIn(n))) && Next(s2, Fs(MoveIn(n))) == s'
  {
    FirstStep(n, dirs);
    MoveSteps(n, dirs + {6}, Next(s, Fs(Mkdir(n))));
  }

  /** Starting on course, the steps are legal and smooth. */
  lemma SmoothSoFar(n: Names, dirs: set<Inode>)
    requires AllNames(n)
    ensures var s0 := StateBefore(n, dirs);
            OnCourse(s0) && ValidRun(s0, Steps(n)) && Run(s0, Steps(n)) == StateAfter(n, dirs)
  {
    var s0, s4 := StateBefore(n, dirs), StateAfter(n, dirs);
    var s3 := s4.(kernel := s4.queue, queue := []);
    StartsOnCourse(n, dirs);
    ThreeSteps(n, dirs, s0, s3);
    ReadStep(n, dirs + {6}, s3);
    RunFour(s0, Fs(Mkdir(n)), Fs(MoveAway(n)), Fs(MoveIn(n)), Read(6));
  }

  /**
   mkdir /w/d/a, mv /w/d /w/e, mv /v/x /w/d, and only then the events: CREATE finds /w/d/a, which is another
   directory by now, and the MOVE_SELF still queued takes the new watch to /w/e/a. What is queued does not
   bring it back.
   */
  lemma ReplacedDirectory(n: Names, dirs: set<Inode>, now: int)
    requires AllNames(n)
    ensures var s := StateAfter(n, dirs);
            var take := Take(Answer(now, [Found(PathStr([n.w, n.d] + [n.a]), 4)], []), WatchedBefore()[4 := 5]);
            OnCourse(s) && Legal(s, take) && !OnCourse(Next(s, take))
  {
    var s := StateAfter(n, dirs);
    SmoothSoFar(n, dirs);
    RunOnCourse(StateBefore(n, dirs), Steps(n));
    TakeGoesWrong(n, dirs + {6}, s, Answer(now, [Found(PathStr([n.w, n.d] + [n.a]), 4)], []), WatchedBefore()[4 := 5]);
  }

  lemma TakeGoesWrong(n: Names, dirs: set<Inode>, s: State, a: Answer, at': Attachment)
    requires AllNames(n) && s.tree == After(After(After(TreeBefore(n), Mkdir(n)), MoveAway(n)), MoveIn(n))
    requires s.at == WatchedBefore() && s.table == TableBefore(n) && s.kernel == []
    requires s.queue == [Created(2, n.a, true)] + MoveEvents(n, dirs, WatchedBefore())
    requires a.walk == [Found(PathStr([n.w, n.d] + [n.a]), 4)] && a.inner == [] && at' == WatchedBefore()[4 := 5]
    ensures Legal(s, Take(a, at')) && !OnCourse(Next(s, Take(a, at')))
  {
    var rest := MoveEvents(n, dirs, WatchedBefore());
    assert Rest(s) == rest;
    TakenFollows(n, dirs, rest);
    CreatedAdds(n);
    TakenLegal(n, s.tree, rest, at');
    TakenWrong(n, s.tree, at');
    assert Undated(TableBefore(n)) == TableBefore(n);
    OffCourse(s, a, at', 4);
  }

  lemma TakenFollows(n: Names, dirs: set<Inode>, rest: seq<Event>)
    requires AllNames(n) && rest == MoveEvents(n, dirs, WatchedBefore())
    ensures forall e :: e in rest ==> e.wd != 4
    ensures var t := Drain(TableAdded(n), rest);
            4 in t.watches && t.watches[4].path == PathStr([n.w, n.e] + [n.a])
  {
    EventsAre(n, dirs, WatchedBefore());
    EventsAre(n, dirs, WatchedOther());
    NotFour(n, dirs);
    FollowsTheOther(n, dirs);
  }

  lemma TakenLegal(n: Names, tree: Tree, rest: seq<Event>, at': Attachment)
    requires AllNames(n) && tree == After(After(After(TreeBefore(n), Mkdir(n)), MoveAway(n)), MoveIn(n))
    requires at' == WatchedBefore()[4 := 5] && forall e :: e in rest ==> e.wd != 4
    ensures Adding(tree, TableBefore(n), WatchedBefore(), Created(2, n.a, true), rest,
                   [Found(PathStr([n.w, n.d] + [n.a]), 4)], at')
  {
    MoveInTree(n, After(After(TreeBefore(n), Mkdir(n)), MoveAway(n)));
    CreatedLegal(n, tree, rest);
  }

  lemma TakenWrong(n: Names, tree: Tree, at': Attachment)
    requires AllNames(n) && tree == After(After(After(TreeBefore(n), Mkdir(n)), MoveAway(n)), MoveIn(n))
    requires at' == WatchedBefore()[4 := 5]
    ensures !Named(tree, at'[4], PathStr([n.w, n.e] + [n.a]))
  {
    MoveInTree(n, After(After(TreeBefore(n), Mkdir(n)), MoveAway(n)));
    NamedBy(tree, 5, [n.w, n.d] + [n.a]);
    OtherPath(n);
  }
}
