/**
 The watch table of `_SysProcessEvent`: one path string per watch descriptor, brought up to date
 from queued CREATE, MOVED_FROM, MOVED_TO and MOVE_SELF events.
 */
module WatchTable {
  import opened Sequences
  import opened Paths
  import opened Watches

  type Wd = nat

  /** A path remembered by a move event, and when. */
  datatype Record = Record(path: string, date: int)

  /** `watches` is the watch manager's `_wmd`; `cookies` and `moves` are `_mv_cookie` and `_mv`. */
  datatype Table = Table(watches: map<Wd, Watch>, cookies: map<nat, Record>, moves: map<string, Record>)

  /** One step of a directory walk by the system: a path, and the descriptor inotify returned for it. */
  datatype Found = Found(path: string, wd: int)

  datatype Event =
    | MovedFrom(wd: Wd, cookie: nat, name: string)
    | MovedTo(wd: Wd, cookie: nat, name: string, isDir: bool)
    | MoveSelf(wd: Wd)
    | Created(wd: Wd, name: string, isDir: bool)
    | Ignored(wd: Wd)
    | Other(wd: Wd)

  /**
   What the system answers while an event is handled: the clock, the paths that `add_watch` walks
   over with their descriptors, and the events queued for the entries of a new directory.
   */
  datatype Answer = Answer(now: int, walk: seq<Found>, inner: seq<Event>)

  /** One minute, in the clock's microseconds. */
  const MINUTE := 60_000_000

  const UNKNOWN := "-unknown-path"

  function Unfresh<K>(records: map<K, Record>, now: int): map<K, Record> {
    map k | k in records && now - records[k].date <= MINUTE :: records[k]
  }

  function OnCleanup(t: Table, now: int): Table {
    t.(cookies := Unfresh(t.cookies, now), moves := Unfresh(t.moves, now))
  }

  predicate Added(f: Found, exclude: string -> bool) {
    !exclude(f.path) && f.wd >= 0
  }

  function AddFound(watches: map<Wd, Watch>, walk: seq<Found>, exclude: string -> bool): map<Wd, Watch>
    decreases |walk|
  {
    if |walk| == 0 then watches
    else
      var f := walk[0];
      AddFound(if Added(f, exclude) then watches[f.wd := Watch(NormPath(f.path), true, exclude)] else watches,
               walk[1..], exclude)
  }

  /** Where handling an event adds watches: at a new directory, or at one moved in from nowhere known. */
  function AddingPath(t: Table, e: Event): Option<string>
    requires e.wd in t.watches
  {
    var w := t.watches[e.wd];
    match e
    case MovedTo(_, cookie, name, isDir) =>
      var dst := NormPath(PathJoin(w.path, name));
      if cookie !in t.cookies && isDir && w.autoAdd && !w.exclude(dst) then Some(dst) else None
    case Created(_, name, isDir) =>
      var created := PathJoin(w.path, name);
      if isDir && w.autoAdd && !w.exclude(created) then Some(created) else None
    case _ => None
  }

  function OnMovedFrom(t: Table, wd: Wd, cookie: nat, name: string, now: int): Table
    requires wd in t.watches
  {
    t.(cookies := t.cookies[cookie := Record(NormPath(PathJoin(t.watches[wd].path, name)), now)])
  }

  function OnMovedTo(t: Table, wd: Wd, cookie: nat, name: string, now: int): Table
    requires wd in t.watches && cookie in t.cookies
  {
    t.(moves := t.moves[t.cookies[cookie].path := Record(NormPath(PathJoin(t.watches[wd].path, name)), now)])
  }

  function Rebase(w: Watch, src: string, dst: string): Watch {
    if src + "/" <= w.path then w.(path := PathJoin(dst, w.path[|src| + 1..])) else w
  }

  function OnMoveSelf(t: Table, wd: Wd): Table
    requires wd in t.watches
  {
    var w := t.watches[wd];
    if w.path in t.moves then
      var dst := t.moves[w.path].path;
      var ws := t.watches[wd := w.(path := dst)];
      t.(watches := map d | d in ws :: Rebase(ws[d], w.path, dst))
    else if !EndsWith(w.path, UNKNOWN) then t.(watches := t.watches[wd := w.(path := w.path + UNKNOWN)])
    else t
  }

  /** What one queued event does to the table; an event for an unknown descriptor is skipped. */
  function Handle(t: Table, e: Event, now: int, walk: seq<Found>): Table {
    if e.wd !in t.watches then t
    else if AddingPath(t, e).Some? then t.(watches := AddFound(t.watches, walk, t.watches[e.wd].exclude))
    else match e
      case MovedFrom(wd, cookie, name) => OnMovedFrom(t, wd, cookie, name, now)
      case MovedTo(wd, cookie, name, _) => if cookie in t.cookies then OnMovedTo(t, wd, cookie, name, now) else t
      case MoveSelf(wd) => OnMoveSelf(t, wd)
      case Ignored(wd) => t.(watches := t.watches - {wd})
      case _ => t
  }

  /** The events that handling an event queues: those for the entries of a directory that is now watched. */
  function Queued(t: Table, e: Event, a: Answer): seq<Event> {
    if e.Created? && e.wd in t.watches && AddingPath(t, e).Some? && |a.walk| > 0 && a.walk[0].wd > 0 then a.inner
         else []
  }

  /** The answers are just those needed until the queue is empty. */
  predicate Enough(t: Table, queue: seq<Event>, answers: seq<Answer>)
    decreases |answers|
  {
    if |queue| == 0 then |answers| == 0
    else
      && |answers| > 0
      && var e, a := queue[0], answers[0];
         Enough(Handle(t, e, a.now, a.walk), queue[1..] + Queued(t, e, a), answers[1..])
  }

  /** Handling a queue, and what it queues, to its end. */
  function Drained(t: Table, queue: seq<Event>, answers: seq<Answer>): Table
    requires Enough(t, queue, answers)
    decreases |answers|
  {
    if |queue| == 0 then t
    else
      var e, a := queue[0], answers[0];
      Drained(Handle(t, e, a.now, a.walk), queue[1..] + Queued(t, e, a), answers[1..])
  }

  /** The notifier with its queue and its watch table. */
  class SysProcessEvent {
    var watches: map<Wd, Watch>
    var mvCookie: map<nat, Record>
    var mv: map<string, Record>
    var eventq: seq<Event>

    constructor (watches: map<Wd, Watch>)
      ensures View() == Table(watches, map[], map[]) && eventq == []
    {
      this.watches, mvCookie, mv, eventq := watches, map[], map[], [];
    }

    ghost function View(): Table
      reads this
    {
      Table(watches, mvCookie, mv)
    }

    method CleanupRecords(now: int)
      modifies this`mvCookie, this`mv
      ensures View() == OnCleanup(old(View()), now)
    {
      mvCookie := Unfresh(mvCookie, now);
      mv := Unfresh(mv, now);
    }

    method ProcessMovedFrom(wd: Wd, cookie: nat, name: string, now: int)
      requires wd in watches
      modifies this`mvCookie
      ensures View() == OnMovedFrom(old(View()), wd, cookie, name, now)
    {
      var srcPath := NormPath(PathJoin(watches[wd].path, name));
      mvCookie := mvCookie[cookie := Record(srcPath, now)];
    }

    method ProcessMovedTo(wd: Wd, cookie: nat, name: string, isDir: bool, a: Answer)
      requires wd in watches
      modifies this`mv, this`watches
      ensures View() == Handle(old(View()), MovedTo(wd, cookie, name, isDir), a.now, a.walk)
    {
      var watch := watches[wd];
      var dstPath := NormPath(PathJoin(watch.path, name));
      if cookie in mvCookie {
        mv := mv[mvCookie[cookie].path := Record(dstPath, a.now)];
      } else if isDir && watch.autoAdd && !watch.exclude(dstPath) {
        AddWatches(a.walk, watch.exclude);
      }
    }

    method ProcessCreate(wd: Wd, name: string, isDir: bool, a: Answer)
      requires wd in watches
      modifies this`watches, this`eventq
      ensures View() == Handle(old(View()), Created(wd, name, isDir), a.now, a.walk)
      ensures eventq == old(eventq) + Queued(old(View()), Created(wd, name, isDir), a)
    {
      if isDir {
        var watch := watches[wd];
        var createdDir := PathJoin(watch.path, name);
        if watch.autoAdd && !watch.exclude(createdDir) {
          AddWatches(a.walk, watch.exclude);
          if |a.walk| > 0 && a.walk[0].wd > 0 {
            eventq := eventq + a.inner;
          }
        }
      }
    }

    method AddWatches(walk: seq<Found>, exclude: string -> bool)
      modifies this`watches
      ensures watches == AddFound(old(watches), walk, exclude)
    {
      for i := 0 to |walk|
        invariant AddFound(watches, walk[i..], exclude) == AddFound(old(watches), walk, exclude)
      {
        assert walk[i..][1..] == walk[i + 1..];
        if !exclude(walk[i].path) && walk[i].wd >= 0 {
          watches := watches[walk[i].wd := Watch(NormPath(walk[i].path), true, exclude)];
        }
      }
    }

    method ProcessMoveSelf(wd: Wd)
      requires wd in watches
      modifies this`watches
      ensures View() == OnMoveSelf(old(View()), wd)
    {
      var watch := watches[wd];
      var src := watch.path;
      if src in mv {
        var dst := mv[src].path;
        watches := watches[wd := watch.(path := dst)];
        ghost var start := watches;
        var todo := watches.Keys;
        while todo != {}
          invariant todo <= watches.Keys == start.Keys
          invariant forall d :: d in start ==> watches[d] == if d in todo then start[d] else Rebase(start[d], src, dst)
          decreases todo
        {
          var d :| d in todo;
          var w := watches[d];
          if src + "/" <= w.path {
            watches := watches[d := w.(path := PathJoin(dst, w.path[|src| + 1..]))];
          }
          todo := todo - {d};
        }
      } else if !EndsWith(src, UNKNOWN) {
        watches := watches[wd := watch.(path := src + UNKNOWN)];
      }
    }

    /** `process_events`: drains the queue, with whatever is queued on the way, then cleans up. */
    method ProcessEvents(answers: seq<Answer>, end: int)
      requires Enough(View(), eventq, answers)
      modifies this
      ensures eventq == []
      ensures View() == OnCleanup(Drained(old(View()), old(eventq), answers), end)
    {
      ghost var result := Drained(View(), eventq, answers);
      var i := 0;
      ghost var rest := answers;
      while eventq != []
        invariant i <= |answers| && rest == answers[i..]
        invariant Enough(View(), eventq, rest) && Drained(View(), eventq, rest) == result
        decreases |rest|
      {
        ghost var t, queue := View(), eventq;
        var e, a := eventq[0], answers[i];
        assert a == rest[0] && rest[1..] == answers[i + 1..];
        eventq := eventq[1..];
        ProcessOne(e, a);
        assert View() == Handle(t, e, a.now, a.walk) && eventq == queue[1..] + Queued(t, e, a);
        i, rest := i + 1, rest[1..];
      }
      CleanupRecords(end);
    }

    method ProcessOne(e: Event, a: Answer)
      modifies this
      ensures View() == Handle(old(View()), e, a.now, a.walk)
      ensures eventq == old(eventq) + Queued(old(View()), e, a)
    {
      if e.wd in watches {
        match e
        case MovedFrom(wd, cookie, name) => ProcessMovedFrom(wd, cookie, name, a.now);
        case MovedTo(wd, cookie, name, isDir) => ProcessMovedTo(wd, cookie, name, isDir, a);
        case MoveSelf(wd) => ProcessMoveSelf(wd);
        case Created(wd, name, isDir) => ProcessCreate(wd, name, isDir, a);
        case Ignored(wd) => watches := watches - {wd};
        case Other(_) =>
      }
    }
  }
}
