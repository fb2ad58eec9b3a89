/**
 Recursive auto-add: a queued IN_CREATE of a directory adds a watch on it and queues a simulated
 IN_CREATE for everything inside that is not watched yet. The directory tree stays fixed.
 */
module DirTree {
  import opened Sequences
  import opened Paths

  datatype Node = File | Special | Dir(entries: seq<Entry>)
  datatype Entry = Entry(name: string, node: Node)

  function Size(n: Node): (s: nat)
    ensures s >= 1
  {
    match n
    case Dir(entries) => 1 + SizeAll(entries)
    case _ => 1
  }

  function SizeAll(entries: seq<Entry>): nat {
    if entries == [] then 0 else Size(entries[0].node) + SizeAll(entries[1..])
  }

  ghost predicate WellFormed(n: Node) {
    n.Dir? ==>
      && (forall i :: 0 <= i < |n.entries| ==> ValidName(n.entries[i].name) && WellFormed(n.entries[i].node))
      && (forall i, j :: 0 <= i < j < |n.entries| ==> n.entries[i].name != n.entries[j].name)
  }

  function Find(entries: seq<Entry>, name: string): (r: Option<Node>)
    ensures r.None? <==> forall i :: 0 <= i < |entries| ==> entries[i].name != name
    ensures r.Some? ==> exists i :: 0 <= i < |entries| && entries[i] == Entry(name, r.value)
  {
    if entries == [] then None
    else if entries[0].name == name then Some(entries[0].node)
    else
      var r := Find(entries[1..], name);
      assert r.Some? ==> exists i :: 0 <= i < |entries[1..]| && entries[1..][i] == Entry(name, r.value);
      r
  }

  function Child(n: Node, name: string): Option<Node> {
    if n.Dir? then Find(n.entries, name) else None
  }

  /** What sits at a path below n. */
  function Walk(n: Node, p: seq<string>): Option<Node> {
    if p == [] then Some(n)
    else
      var up := Walk(n, p[..|p| - 1]);
      if up.None? then None else Child(up.value, p[|p| - 1])
  }

  ghost predicate IsDirAt(n: Node, p: seq<string>) {
    Walk(n, p).Some? && Walk(n, p).value.Dir?
  }

  lemma WalkChild(n: Node, p: seq<string>, name: string)
    ensures Walk(n, p + [name]) == if Walk(n, p).None? then None else Child(Walk(n, p).value, name)
  {
    assert (p + [name])[..|p|] == p;
  }

  lemma {:induction false} WalkWellFormed(n: Node, p: seq<string>)
    requires WellFormed(n) && Walk(n, p).Some?
    ensures WellFormed(Walk(n, p).value)
  {
    if p != [] {
      WalkWellFormed(n, p[..|p| - 1]);
    }
  }

  /** The names in a path string, as the kernel resolves it. */
  function Names(path: string): seq<string> {
    Filled(Split(path, '/'))
  }

  function Filled(parts: seq<string>): seq<string> {
    if parts == [] then [] else (if parts[0] == "" || parts[0] == "." then [] else [parts[0]]) + Filled(parts[1..])
  }

  lemma {:induction false} FilledKeeps(p: seq<string>)
    requires ValidPath(p)
    ensures Filled(p) == p
  {
    if p != [] {
      FilledKeeps(p[1..]);
    }
  }

  lemma NamesOfPath(p: seq<string>)
    requires ValidPath(p)
    ensures Names(PathStr(p)) == p
  {
    if p == [] {
      assert PathStr(p) == "" + ['/'] + "";
      SplitFirst("", "", '/');
      assert Filled(["", ""]) == [] by {
        assert ["", ""][1..] == [""];
        assert [""][1..] == [];
      }
    } else {
      SplitPathStr(p);
      assert ([""] + p)[1..] == p;
      FilledKeeps(p);
    }
  }
}

module AutoAdd {
  import opened Sequences
  import opened Paths
  import opened Watches
  import opened DirTree

  type Wd = int
  datatype Event = Create(wd: Wd, isDir: bool, name: string) | Other(wd: Wd)

  /** The work an event stands for: everything in the subtree it announces. */
  function Weight(root: Node, watches: map<Wd, Watch>, e: Event): (w: nat)
    ensures w >= 1
  {
    if e.Create? && e.isDir && e.wd in watches then
      var at := Walk(root, Names(watches[e.wd].path) + [e.name]);
      if at.Some? then Size(at.value) else 1
    else 1
  }

  function Total(root: Node, watches: map<Wd, Watch>, queue: seq<Event>): nat {
    if queue == [] then 0 else Weight(root, watches, queue[0]) + Total(root, watches, queue[1..])
  }

  lemma {:induction false} TotalConcat(root: Node, watches: map<Wd, Watch>, a: seq<Event>, b: seq<Event>)
    ensures Total(root, watches, a + b) == Total(root, watches, a) + Total(root, watches, b)
  {
    if a == [] {
      assert a + b == b;
    } else {
      TotalConcat(root, watches, a[1..], b);
      assert (a + b)[1..] == a[1..] + b;
    }
  }

  /** Old descriptors keep their paths. */
  ghost predicate Grows(watches: map<Wd, Watch>, watches': map<Wd, Watch>) {
    forall d :: d in watches ==> d in watches' && watches'[d].path == watches[d].path
  }

  lemma {:induction false} TotalStable(root: Node, watches: map<Wd, Watch>, watches': map<Wd, Watch>, queue: seq<Event>)
    requires Grows(watches, watches')
    requires forall e :: e in queue ==> e.wd in watches || e.wd !in watches'
    ensures Total(root, watches', queue) == Total(root, watches, queue)
  {
    if queue != [] {
      assert queue[0] in queue;
      TotalStable(root, watches, watches', queue[1..]);
    }
  }

  ghost predicate WatchedPath(watches: map<Wd, Watch>, p: seq<string>) {
    exists d :: d in watches && watches[d].path == PathStr(p)
  }

  ghost predicate Pending(queue: seq<Event>, d: Wd, name: string) {
    Create(d, true, name) in queue
  }

  /** Watch d has nothing left to announce: each directory in it that it does not exclude is watched or queued. */
  ghost predicate Served(root: Node, watches: map<Wd, Watch>, queue: seq<Event>, d: Wd)
    requires d in watches
  {
    var w := watches[d];
    w.autoAdd ==>
      forall p, name ::
        w.path == PathStr(p) && ValidPath(p) && IsDirAt(root, p + [name]) && !w.exclude(PathStr(p + [name]))
        ==> WatchedPath(watches, p + [name]) || Pending(queue, d, name)
  }

  ghost predicate AllServed(root: Node, watches: map<Wd, Watch>, queue: seq<Event>) {
    forall d :: d in watches ==> Served(root, watches, queue, d)
  }

  /** Watch d was added on its own: by a watch on the directory that holds it, under a filter that lets it pass. */
  ghost predicate AutoAdded(before: map<Wd, Watch>, watches: map<Wd, Watch>, d: Wd)
    requires d in watches
  {
    var w := watches[d];
    && w.autoAdd && !w.exclude(w.path)
    && (exists o :: o in before && before[o].exclude == w.exclude)
    && (exists p, name :: ValidPath(p) && ValidName(name) && w.path == PathStr(p + [name]) && WatchedPath(watches, p))
  }

  ghost predicate Justified(before: map<Wd, Watch>, watches: map<Wd, Watch>) {
    forall d :: d in watches ==> (d in before && before[d] == watches[d]) || AutoAdded(before, watches, d)
  }

  lemma JustifiedTransitive(a: map<Wd, Watch>, b: map<Wd, Watch>, c: map<Wd, Watch>)
    requires Justified(a, b) && Justified(b, c) && Grows(b, c)
    ensures Justified(a, c)
  {
    forall d | d in c && !(d in a && a[d] == c[d])
      ensures AutoAdded(a, c, d)
    {
      if d in b && b[d] == c[d] {
        assert AutoAdded(a, b, d);
        var p, name :| ValidPath(p) && ValidName(name) && b[d].path == PathStr(p + [name]) && WatchedPath(b, p);
        assert WatchedPath(c, p);
      } else {
        assert AutoAdded(b, c, d);
        var o :| o in b && b[o].exclude == c[d].exclude;
        if !(o in a && a[o] == b[o]) {
          assert AutoAdded(a, b, o);
        }
      }
    }
  }

  ghost predicate StoredPath(path: string) {
    exists p :: ValidPath(p) && path == PathStr(p)
  }

  /** The table and the kernel know the same paths by the same descriptors. */
  ghost predicate Consistent(watches: map<Wd, Watch>, kernel: map<string, Wd>, next: Wd) {
    && next >= 1
    && (forall d :: d in watches ==> 0 < d < next && StoredPath(watches[d].path)
                                     && watches[d].path in kernel && kernel[watches[d].path] == d)
    && (forall s :: s in kernel ==> kernel[s] in watches && watches[kernel[s]].path == s)
  }

  ghost predicate Queued(queue: seq<Event>, next: Wd) {
    forall e :: e in queue ==> e.wd < next && (e.Create? ==> ValidName(e.name))
  }

  lemma AddConsistent(watches: map<Wd, Watch>, kernel: map<string, Wd>, next: Wd, w: Watch)
    requires Consistent(watches, kernel, next) && StoredPath(w.path)
    ensures var wd := if w.path in kernel then kernel[w.path] else next;
            && wd > 0
            && Consistent(watches[wd := w], kernel[w.path := wd], if w.path in kernel then next else next + 1)
            && Grows(watches, watches[wd := w])
  {
  }

  class Notifier {
    const root: Node
    var watches: map<Wd, Watch>
    var eventq: seq<Event>
    /** The kernel's side: the descriptor of each watched path, and the next descriptor to hand out. */
    var kernel: map<string, Wd>
    var next: Wd

    ghost predicate Valid()
      reads this
    {
      WellFormed(root) && Consistent(watches, kernel, next) && Queued(eventq, next)
    }

    /** A notifier with one watch, put on a path by the user. */
    constructor (root: Node, path: seq<string>, autoAdd: bool, exclude: string -> bool)
      requires WellFormed(root) && ValidPath(path)
      ensures Valid() && this.root == root && eventq == []
      ensures watches == map[1 := Watch(PathStr(path), autoAdd, exclude)]
    {
      this.root, eventq := root, [];
      watches := map[1 := Watch(PathStr(path), autoAdd, exclude)];
      kernel, next := map[PathStr(path) := 1], 2;
    }

    /** `get_wd`: a search through the table for the normalized path. */
    method GetWd(path: string) returns (r: Option<Wd>)
      ensures r.Some? ==> r.value in watches && watches[r.value].path == NormPath(path)
      ensures r.None? ==> forall d :: d in watches ==> watches[d].path != NormPath(path)
    {
      r := SearchPath(NormPath(path));
    }

    method SearchPath(path: string) returns (r: Option<Wd>)
      ensures r.Some? ==> r.value in watches && watches[r.value].path == path
      ensures r.None? ==> forall d :: d in watches ==> watches[d].path != path
    {
      var todo := watches.Keys;
      while todo != {}
        invariant todo <= watches.Keys
        invariant forall d :: d in watches && d !in todo ==> watches[d].path != path
        decreases todo
      {
        ghost var some := SomeElement(todo);
        var d :| d in todo;
        if watches[d].path == path {
          return Some(d);
        }
        todo := todo - {d};
      }
      return None;
    }

    /** `add_watch` of one path: the kernel returns the descriptor it has, or a new one, or an error. */
    method AddWatch(path: string, autoAdd: bool, exclude: string -> bool, ghost p: seq<string>) returns (wd: Wd)
      requires Valid() && ValidPath(p) && path == PathStr(p)
      modifies this`watches, this`kernel, this`next
      ensures Valid() && next >= old(next)
      ensures exclude(path) ==> wd == -2
      ensures !exclude(path) && Walk(root, p).None? ==> wd == -1
      ensures wd < 0 ==> watches == old(watches)
      ensures !exclude(path) && Walk(root, p).Some? ==>
                && wd > 0 && watches == old(watches)[wd := Watch(path, autoAdd, exclude)]
                && Grows(old(watches), watches) && (wd in old(watches) || wd >= old(next))
    {
      NormPathStored(p);
      NamesOfPath(p);
      if exclude(path) {
        return -2;
      }
      wd := InotifyAddWatch(NormPath(path), Watch(NormPath(path), autoAdd, exclude));
    }

    /** `__add_watch` with the system call inlined: a path that leads nowhere is an error. */
    method InotifyAddWatch(path: string, watch: Watch) returns (wd: Wd)
      requires Valid() && StoredPath(path) && watch.path == path
      modifies this`watches, this`kernel, this`next
      ensures Valid() && next >= old(next)
      ensures if Walk(root, Names(path)).None? then wd == -1 && watches == old(watches)
              else && wd > 0 && watches == old(watches)[wd := watch]
                   && Grows(old(watches), watches) && (wd in old(watches) || wd >= old(next))
    {
      if Walk(root, Names(path)).None? {
        return -1;
      }
      AddConsistent(watches, kernel, next, watch);
      if path in kernel {
        wd := kernel[path];
      } else {
        wd := next;
        next := next + 1;
      }
      kernel := kernel[path := wd];
      watches := watches[wd := watch];
    }

    /** One listed name: a simulated event, unless it is watched already or neither a file nor a directory. */
    method QueueInner(wd: Wd, dir: string, entry: Entry, ghost p: seq<string>)
      requires Valid() && wd in watches && dir == PathStr(p) && ValidPath(p) && ValidName(entry.name)
      modifies this`eventq
      ensures Valid()
      ensures eventq == old(eventq) + AnnouncedOne(watches, wd, p, entry)
    {
      var inner := PathJoin(dir, entry.name);
      ChildPath(p, entry.name);
      NormPathStored(p + [entry.name]);
      var known := GetWd(inner);
      if known.Some? {
        KnownWatched(watches, known.value, p + [entry.name]);
      } else if entry.node.File? {
        eventq := eventq + [Create(wd, false, entry.name)];
      } else if entry.node.Dir? {
        eventq := eventq + [Create(wd, true, entry.name)];
      }
      assert known.None? ==> !WatchedPath(watches, p + [entry.name]);
    }

    /** The listing part of `process_IN_CREATE`. */
    method ListDir(wd: Wd, dir: string, entries: seq<Entry>, ghost p: seq<string>)
      requires Valid() && wd in watches && watches[wd].path == dir == PathStr(p) && ValidPath(p)
      requires Walk(root, p) == Option.Some(Dir(entries))
      modifies this`eventq
      ensures Valid() && eventq == old(eventq) + Announced(watches, wd, p, entries)
      ensures Listed(watches, eventq, wd, p, entries)
      ensures Total(root, watches, eventq) <= Total(root, watches, old(eventq)) + SizeAll(entries)
    {
      WalkWellFormed(root, p);
      assert entries[0..] == entries;
      for i := 0 to |entries|
        invariant Valid() && eventq == old(eventq) + Announced(watches, wd, p, entries[..i])
        invariant Listed(watches, eventq, wd, p, entries[..i])
        invariant Total(root, watches, eventq) + SizeAll(entries[i..]) <= Total(root, watches, old(eventq)) +
                    SizeAll(entries)
      {
        ghost var queue := eventq;
        QueueInner(wd, dir, entries[i], p);
        AnnouncedNext(watches, wd, p, entries, i, old(eventq), queue, eventq);
        ListedStep(root, watches, queue, eventq, wd, p, entries, i);
      }
      assert entries[..|entries|] == entries;
    }

    /** The part of `process_IN_CREATE` for a directory to be watched. */
    method WatchCreated(e: Event, createdDir: string, ghost p: seq<string>)
      requires Valid() && e.Create? && e.wd in watches && ValidPath(p) && ValidPath(p + [e.name])
      requires watches[e.wd].path == PathStr(p) && createdDir == PathStr(p + [e.name])
      requires watches[e.wd].autoAdd && !watches[e.wd].exclude(createdDir) && e.isDir && ValidName(e.name)
      requires AllServed(root, watches, [e] + eventq)
      modifies this
      ensures Valid() && Grows(old(watches), watches) && Justified(old(watches), watches)
      ensures AllServed(root, watches, eventq)
      ensures Total(root, watches, eventq) < Total(root, old(watches), [e] + old(eventq))
      ensures Announces(root, watches, old(eventq), eventq, p + [e.name])
    {
      ghost var before, queue := watches, eventq;
      var watch := watches[e.wd];
      NamesOfPath(p + [e.name]);
      var node := Walk(root, Names(createdDir));
      var wd := AddWatch(createdDir, watch.autoAdd, watch.exclude, p + [e.name]);
      if wd > 0 {
        AddedJustified(before, watches, e.wd, p, e.name, wd);
        OthersServed(root, before, watches, queue, e, p, wd);
        AddedWeight(root, before, watches, queue, e, p);
        if node.Some? && node.value.Dir? {
          ListDir(wd, createdDir, node.value.entries, p + [e.name]);
        }
        NowServed(root, watches, queue, eventq, p + [e.name], wd);
      } else {
        Unserved(root, watches, e, p);
        Dropped(root, watches, queue, e);
      }
    }

    /** `process_IN_CREATE` */
    method ProcessCreate(e: Event)
      requires Valid() && e.Create? && e.wd in watches && ValidName(e.name)
      requires AllServed(root, watches, [e] + eventq)
      modifies this
      ensures Valid() && Grows(old(watches), watches) && Justified(old(watches), watches)
      ensures AllServed(root, watches, eventq)
      ensures Total(root, watches, eventq) < Total(root, old(watches), [e] + old(eventq))
      ensures forall p :: ValidPath(p) && old(watches)[e.wd].path == PathStr(p) ==>
                var w := old(watches)[e.wd];
                if e.isDir && w.autoAdd && !w.exclude(PathStr(p + [e.name]))
                then Announces(root, watches, old(eventq), eventq, p + [e.name])
                else watches == old(watches) && eventq == old(eventq)
    {
      var watch := watches[e.wd];
      ghost var p :| ValidPath(p) && watch.path == PathStr(p);
      var createdDir := PathJoin(watch.path, e.name);
      ChildPath(p, e.name);
      OnePath(p);
      if e.isDir && watch.autoAdd && !watch.exclude(createdDir) {
        WatchCreated(e, createdDir, p);
      } else {
        Unserved(root, watches, e, p);
        Dropped(root, watches, eventq, e);
      }
    }

    /**
     `process_events`: draining terminates, although every directory found queues more events, because the
     subtrees still announced get smaller; and it ends with every auto-adding watch served.
     */
    method ProcessEvents()
      requires Valid() && AllServed(root, watches, eventq)
      modifies this
      ensures Valid() && eventq == []
      ensures AllServed(root, watches, [])
      ensures Grows(old(watches), watches) && Justified(old(watches), watches)
    {
      while eventq != []
        invariant Valid() && AllServed(root, watches, eventq)
        invariant Grows(old(watches), watches) && Justified(old(watches), watches)
        decreases Total(root, watches, eventq)
      {
        ghost var before, queue := watches, eventq;
        var e := eventq[0];
        assert e in eventq;
        eventq := eventq[1..];
        assert [e] + eventq == queue;
        if e.Create? && e.wd in watches {
          ProcessCreate(e);
          JustifiedTransitive(old(watches), before, watches);
        } else {
          Dropped(root, watches, eventq, e);
        }
      }
    }
  }

  /** What is queued for an entry of a new directory: an event if it is a file or a directory and not watched yet. */
  ghost function AnnouncedOne(watches: map<Wd, Watch>, d: Wd, p: seq<string>, entry: Entry): seq<Event> {
    if entry.node.Special? || WatchedPath(watches, p + [entry.name]) then []
    else [Create(d, entry.node.Dir?, entry.name)]
  }

  ghost function Announced(watches: map<Wd, Watch>, d: Wd, p: seq<string>, entries: seq<Entry>): seq<Event> {
    if |entries| == 0 then []
    else Announced(watches, d, p, entries[..|entries| - 1]) + AnnouncedOne(watches, d, p, entries[|entries| - 1])
  }

  lemma AnnouncedNext(watches: map<Wd, Watch>, d: Wd, p: seq<string>, entries: seq<Entry>, i: nat, start: seq<Event>,
                      queue: seq<Event>, queue': seq<Event>)
    requires i < |entries| && queue == start + Announced(watches, d, p, entries[..i])
    requires queue' == queue + AnnouncedOne(watches, d, p, entries[i])
    ensures queue' == start + Announced(watches, d, p, entries[..i + 1]) && start <= queue <= queue'
  {
    var front := entries[..i + 1];
    assert front[..|front| - 1] == entries[..i] && front[|front| - 1] == entries[i];
  }

  /** The new directory is watched, and its entries are queued behind everything else. */
  ghost predicate Announces(root: Node, watches: map<Wd, Watch>, queue: seq<Event>, queue': seq<Event>,
                            p: seq<string>) {
    if IsDirAt(root, p) then
      exists d :: d in watches && watches[d].path == PathStr(p)
          && queue' == queue + Announced(watches, d, p, Walk(root, p).value.entries)
    else queue' == queue
  }

  /** Every file and every directory that is listed, and not watched yet, is announced; nothing else is. */
  lemma {:induction false} AnnouncedExactly(watches: map<Wd, Watch>, d: Wd, p: seq<string>, entries: seq<Entry>,
                                            e: Event)
    ensures e in Announced(watches, d, p, entries) <==>
            exists x :: x in entries && !x.node.Special? && !WatchedPath(watches, p + [x.name])
                && e == Create(d, x.node.Dir?, x.name)
    decreases |entries|
  {
    if |entries| > 0 {
      var front, last := entries[..|entries| - 1], entries[|entries| - 1];
      assert entries == front + [last];
      AnnouncedExactly(watches, d, p, front, e);
    }
  }

  lemma OnePath(p: seq<string>)
    requires ValidPath(p)
    ensures forall q :: ValidPath(q) && PathStr(p) == PathStr(q) ==> p == q
  {
    forall q | ValidPath(q) && PathStr(p) == PathStr(q)
      ensures p == q
    {
      PathStrInjective(p, q);
    }
  }

  lemma KnownWatched(watches: map<Wd, Watch>, d: Wd, p: seq<string>)
    requires d in watches && watches[d].path == PathStr(p)
    ensures WatchedPath(watches, p)
  {
  }

  lemma PendingKept(queue: seq<Event>, queue': seq<Event>, d: Wd)
    requires queue <= queue'
    ensures forall name :: Pending(queue, d, name) ==> Pending(queue', d, name)
  {
  }

  lemma {:induction false} FindAt(entries: seq<Entry>, i: nat)
    requires i < |entries| && WellFormed(Dir(entries))
    ensures Find(entries, entries[i].name) == Option.Some(entries[i].node)
  {
    var r := Find(entries, entries[i].name);
    var j :| 0 <= j < |entries| && entries[j] == Entry(entries[i].name, r.value);
    assert entries[j].name == entries[i].name;
  }

  lemma EntryWeight(root: Node, watches: map<Wd, Watch>, e: Event, p: seq<string>, entries: seq<Entry>, i: nat)
    requires WellFormed(root) && Walk(root, p) == Option.Some(Dir(entries)) && i < |entries| && ValidPath(p)
    requires e.wd in watches && watches[e.wd].path == PathStr(p)
    requires e == Create(e.wd, entries[i].node.Dir?, entries[i].name)
    ensures Weight(root, watches, e) <= Size(entries[i].node)
  {
    NamesOfPath(p);
    WalkWellFormed(root, p);
    WalkChild(root, p, entries[i].name);
    FindAt(entries, i);
  }

  /** Every directory among the entries is watched or queued. */
  ghost predicate Listed(watches: map<Wd, Watch>, queue: seq<Event>, d: Wd, p: seq<string>, entries: seq<Entry>) {
    forall e :: e in entries && e.node.Dir? ==> WatchedPath(watches, p + [e.name]) || Pending(queue, d, e.name)
  }

  lemma ListedNext(watches: map<Wd, Watch>, queue: seq<Event>, queue': seq<Event>, d: Wd, p: seq<string>,
                   front: seq<Entry>, entry: Entry)
    requires Listed(watches, queue, d, p, front) && queue' == queue + AnnouncedOne(watches, d, p, entry)
    ensures Listed(watches, queue', d, p, front + [entry])
  {
    PendingKept(queue, queue', d);
    if AnnouncedOne(watches, d, p, entry) != [] {
      assert queue'[|queue|] == Create(d, entry.node.Dir?, entry.name);
    }
    assert forall e :: e in front + [entry] <==> e in front || e == entry;
  }

  lemma TotalOne(root: Node, watches: map<Wd, Watch>, queue: seq<Event>, e: Event)
    ensures Total(root, watches, queue + [e]) == Total(root, watches, queue) + Weight(root, watches, e)
  {
    TotalConcat(root, watches, queue, [e]);
    assert [e][1..] == [];
  }

  lemma ListedStep(root: Node, watches: map<Wd, Watch>, queue: seq<Event>, queue': seq<Event>, d: Wd,
                   p: seq<string>, entries: seq<Entry>, i: nat)
    requires WellFormed(root) && Walk(root, p) == Option.Some(Dir(entries)) && i < |entries| && ValidPath(p)
    requires d in watches && watches[d].path == PathStr(p)
    requires Listed(watches, queue, d, p, entries[..i])
    requires queue' == queue + AnnouncedOne(watches, d, p, entries[i])
    ensures Listed(watches, queue', d, p, entries[..i + 1])
    ensures Total(root, watches, queue') + SizeAll(entries[i + 1..]) <= Total(root, watches, queue) +
              SizeAll(entries[i..])
  {
    var e := Create(d, entries[i].node.Dir?, entries[i].name);
    assert entries[..i + 1] == entries[..i] + [entries[i]];
    ListedNext(watches, queue, queue', d, p, entries[..i], entries[i]);
    assert entries[i..][1..] == entries[i + 1..];
    if AnnouncedOne(watches, d, p, entries[i]) == [] {
      assert queue' == queue;
    } else {
      EntryWeight(root, watches, e, p, entries, i);
      TotalOne(root, watches, queue, e);
    }
  }

  lemma AddedWeight(root: Node, before: map<Wd, Watch>, watches: map<Wd, Watch>, queue: seq<Event>, e: Event,
                    p: seq<string>)
    requires Grows(before, watches) && e.Create? && e.isDir && e.wd in before && before[e.wd].path == PathStr(p)
             && ValidPath(p)
    requires forall x :: x in queue ==> x.wd in before || x.wd !in watches
    ensures var at := Walk(root, p + [e.name]);
            Total(root, before, [e] + queue) == Total(root, watches, queue) + if at.Some? then Size(at.value) else 1
  {
    NamesOfPath(p);
    assert ([e] + queue)[1..] == queue;
    TotalStable(root, before, watches, queue);
  }

  lemma Unserved(root: Node, watches: map<Wd, Watch>, e: Event, p: seq<string>)
    requires e.Create? && e.wd in watches && watches[e.wd].path == PathStr(p) && ValidPath(p)
    requires e.isDir && watches[e.wd].autoAdd ==>
               watches[e.wd].exclude(PathStr(p + [e.name])) || !IsDirAt(root, p + [e.name])
    ensures e.isDir && watches[e.wd].autoAdd ==>
              forall q :: ValidPath(q) && watches[e.wd].path == PathStr(q) ==>
                watches[e.wd].exclude(PathStr(q + [e.name])) || !IsDirAt(root, q + [e.name])
  {
    forall q | ValidPath(q) && watches[e.wd].path == PathStr(q)
      ensures q == p
    {
      PathStrInjective(p, q);
    }
  }

  lemma AddedJustified(before: map<Wd, Watch>, watches: map<Wd, Watch>, parent: Wd, p: seq<string>, name: string,
                       wd: Wd)
    requires parent in before && before[parent].autoAdd && before[parent].path == PathStr(p) && ValidPath(p)
             && ValidName(name)
    requires !before[parent].exclude(PathStr(p + [name])) && Grows(before, watches)
    requires watches == before[wd := Watch(PathStr(p + [name]), true, before[parent].exclude)]
    ensures Justified(before, watches)
  {
    assert watches[parent].path == PathStr(p) && WatchedPath(watches, p);
    assert AutoAdded(before, watches, wd);
  }

  /** The added watch serves whoever waited for event e; nobody else loses anything. */
  lemma OthersServed(root: Node, before: map<Wd, Watch>, watches: map<Wd, Watch>, queue: seq<Event>, e: Event,
                     p: seq<string>, wd: Wd)
    requires AllServed(root, before, [e] + queue)
    requires e.Create? && e.wd in before && before[e.wd].path == PathStr(p) && ValidPath(p)
    requires wd in watches && watches[wd].path == PathStr(p + [e.name]) && Grows(before, watches)
    requires watches == before[wd := watches[wd]]
    ensures forall d :: d in watches && d != wd ==> Served(root, watches, queue, d)
  {
    forall d | d in watches && d != wd
      ensures Served(root, watches, queue, d)
    {
      var w := watches[d];
      assert Served(root, before, [e] + queue, d);
      forall q, name | w.autoAdd && w.path == PathStr(q) && ValidPath(q) && IsDirAt(root, q + [name])
        && !w.exclude(PathStr(q + [name]))
        ensures WatchedPath(watches, q + [name]) || Pending(queue, d, name)
      {
        if WatchedPath(before, q + [name]) {
          var o :| o in before && before[o].path == PathStr(q + [name]);
          assert watches[o].path == PathStr(q + [name]);
        } else if e == Create(d, true, name) {
          PathStrInjective(p, q);
          assert watches[wd].path == PathStr(q + [name]);
        }
      }
    }
  }

  /** A listed directory is served too. */
  lemma NowServed(root: Node, watches: map<Wd, Watch>, queue: seq<Event>, queue': seq<Event>, p: seq<string>, wd: Wd)
    requires wd in watches && watches[wd].path == PathStr(p) && ValidPath(p) && queue <= queue'
    requires forall d :: d in watches && d != wd ==> Served(root, watches, queue, d)
    requires IsDirAt(root, p) ==> Listed(watches, queue', wd, p, Walk(root, p).value.entries)
    ensures AllServed(root, watches, queue')
  {
    forall d | d in watches
      ensures Served(root, watches, queue', d)
    {
      if d == wd {
        forall q, name | watches[wd].path == PathStr(q) && ValidPath(q) && IsDirAt(root, q + [name])
          ensures WatchedPath(watches, q + [name]) || Pending(queue', d, name)
        {
          PathStrInjective(p, q);
          WalkChild(root, q, name);
          var i :| 0 <= i < |Walk(root, p).value.entries|
              && Walk(root, p).value.entries[i] == Entry(name, Walk(root, q + [name]).value);
        }
      } else {
        PendingKept(queue, queue', d);
      }
    }
  }

  /** An event that adds nothing can be dropped: nobody was waiting for it. */
  lemma Dropped(root: Node, watches: map<Wd, Watch>, queue: seq<Event>, e: Event)
    requires AllServed(root, watches, [e] + queue)
    requires e.Create? && e.isDir && e.wd in watches && watches[e.wd].autoAdd ==>
               forall p :: ValidPath(p) && watches[e.wd].path == PathStr(p) ==>
                 watches[e.wd].exclude(PathStr(p + [e.name])) || !IsDirAt(root, p + [e.name])
    ensures AllServed(root, watches, queue)
    ensures Total(root, watches, queue) < Total(root, watches, [e] + queue)
  {
    assert ([e] + queue)[1..] == queue;
    forall d | d in watches
      ensures Served(root, watches, queue, d)
    {
      assert Served(root, watches, [e] + queue, d);
      assert forall name :: Pending([e] + queue, d, name) ==> Pending(queue, d, name) || e == Create(d, true, name);
    }
  }

  // ---- what a drained queue means ----

  /** All watches add on their own, under one filter. */
  ghost predicate Uniform(watches: map<Wd, Watch>, exclude: string -> bool) {
    forall d :: d in watches ==> watches[d].autoAdd && watches[d].exclude == exclude
  }

  /** Every directory from depth n on down to p can be entered. */
  ghost predicate OpenPath(root: Node, exclude: string -> bool, p: seq<string>, n: nat)
    requires n <= |p|
  {
    forall k :: n < k <= |p| ==> IsDirAt(root, p[..k]) && !exclude(PathStr(p[..k]))
  }

  /** Complete: every directory reached from a watched one through directories that are not excluded is watched. */
  lemma {:induction false} Complete(root: Node, watches: map<Wd, Watch>, exclude: string -> bool, p: seq<string>,
                                    n: nat)
    requires AllServed(root, watches, []) && Uniform(watches, exclude)
    requires ValidPath(p) && n <= |p| && WatchedPath(watches, p[..n]) && OpenPath(root, exclude, p, n)
    ensures WatchedPath(watches, p)
    decreases |p|
  {
    if n == |p| {
      assert p[..n] == p;
    } else {
      var up, name := p[..|p| - 1], p[|p| - 1];
      OpenPrefix(root, exclude, p, n);
      assert up[..n] == p[..n];
      Complete(root, watches, exclude, up, n);
      assert up + [name] == p == p[..|p|];
      ServedChild(root, watches, exclude, up, name);
    }
  }

  lemma OpenPrefix(root: Node, exclude: string -> bool, p: seq<string>, n: nat)
    requires n < |p| && OpenPath(root, exclude, p, n)
    ensures OpenPath(root, exclude, p[..|p| - 1], n)
    ensures IsDirAt(root, p) && !exclude(PathStr(p))
  {
    var up := p[..|p| - 1];
    assert forall k :: n < k <= |up| ==> up[..k] == p[..k];
    assert p[..|p|] == p;
  }

  lemma ServedChild(root: Node, watches: map<Wd, Watch>, exclude: string -> bool, p: seq<string>, name: string)
    requires AllServed(root, watches, []) && Uniform(watches, exclude)
    requires ValidPath(p) && WatchedPath(watches, p) && IsDirAt(root, p + [name]) && !exclude(PathStr(p + [name]))
    ensures WatchedPath(watches, p + [name])
  {
    var d :| d in watches && watches[d].path == PathStr(p);
    assert Served(root, watches, [], d);
    assert !Pending([], d, name);
  }

  /** p lies below some path that was watched before, and nothing on the way down to it is excluded. */
  ghost predicate Descends(before: map<Wd, Watch>, exclude: string -> bool, p: seq<string>) {
    WatchedPath(before, p) || (p != [] && !exclude(PathStr(p)) && Descends(before, exclude, p[..|p| - 1]))
  }

  /** Sound: every watch lies below an older one, and nothing on the way down to it is excluded. */
  lemma {:induction false} Sound(before: map<Wd, Watch>, watches: map<Wd, Watch>, exclude: string -> bool,
                                 p: seq<string>)
    requires Justified(before, watches) && Uniform(before, exclude)
    requires ValidPath(p) && WatchedPath(watches, p)
    ensures Descends(before, exclude, p)
    decreases |p|
  {
    var d :| d in watches && watches[d].path == PathStr(p);
    if d in before && before[d] == watches[d] {
      assert WatchedPath(before, p);
    } else {
      assert AutoAdded(before, watches, d);
      var q, name :| ValidPath(q) && ValidName(name) && watches[d].path == PathStr(q + [name])
          && WatchedPath(watches, q);
      PathStrInjective(p, q + [name]);
      assert p[..|p| - 1] == q;
      Sound(before, watches, exclude, q);
    }
  }

  /** New watches inherit the filter and the auto-add flag. */
  lemma StaysUniform(before: map<Wd, Watch>, watches: map<Wd, Watch>, exclude: string -> bool)
    requires Justified(before, watches) && Uniform(before, exclude)
    ensures Uniform(watches, exclude)
  {
    forall d | d in watches
      ensures watches[d].autoAdd && watches[d].exclude == exclude
    {
      assert (d in before && before[d] == watches[d]) || AutoAdded(before, watches, d);
    }
  }
}
