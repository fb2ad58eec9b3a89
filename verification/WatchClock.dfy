/**
 When the notifier recorded the halves of a move, and how long it remembers them: what clean-ups may drop, stated on
 the clock readings of a run.
 */
module WatchClock {
  import opened Sequences
  import opened Paths
  import opened FileTree
  import opened Watches
  import opened WatchTable
  import opened WatchTableRuns

  // ---- one event, one clean-up ----

  /** A half of a move is recorded with the clock reading of its event; all other records stay as they are. */
  lemma RecordedNow(t: Table, e: Event, now: int, walk: seq<Found>)
    requires e.wd in t.watches
    ensures var t' := Handle(t, e, now, walk);
            && (e.MovedFrom? ==> e.cookie in t'.cookies && t'.cookies[e.cookie].date == now)
            && (forall c :: c in t.cookies && !(e.MovedFrom? && e.cookie == c) ==>
                  c in t'.cookies && t'.cookies[c] == t.cookies[c])
            && (forall c :: c in t'.cookies ==> c in t.cookies || (e.MovedFrom? && e.cookie == c))
    ensures var t' := Handle(t, e, now, walk);
            var src := if e.MovedTo? && e.cookie in t.cookies then Some(t.cookies[e.cookie].path) else None;
            && (src.Some? ==> src.value in t'.moves && t'.moves[src.value].date == now)
            && (forall p :: p in t.moves && src != Some(p) ==> p in t'.moves && t'.moves[p] == t.moves[p])
            && (forall p :: p in t'.moves ==> p in t.moves || src == Some(p))
  {
  }

  /** A clean-up keeps a record exactly if it is not older than sixty seconds, and changes nothing else. */
  lemma KeptExactly(t: Table, now: int)
    ensures var t' := OnCleanup(t, now);
            && t'.watches == t.watches
            && (forall c :: c in t'.cookies <==> c in t.cookies && now - t.cookies[c].date <= 60_000_000)
            && (forall c :: c in t'.cookies ==> t'.cookies[c] == t.cookies[c])
            && (forall p :: p in t'.moves <==> p in t.moves && now - t.moves[p].date <= 60_000_000)
            && (forall p :: p in t'.moves ==> t'.moves[p] == t.moves[p])
  {
  }

  // ---- the clock readings of a run ----

  /** The step handles the first half of the move with this cookie. */
  ghost predicate TakesFrom(s: State, step: Step, c: nat) {
    step.Take? && s.queue != [] && s.queue[0].MovedFrom? && s.queue[0].cookie == c && s.queue[0].wd in s.table.watches
  }

  /** The step handles the second half of a move from this path. */
  ghost predicate TakesTo(s: State, step: Step, src: string) {
    && step.Take? && s.queue != [] && s.queue[0].MovedTo? && s.queue[0].wd in s.table.watches
    && s.queue[0].cookie in s.table.cookies && s.table.cookies[s.queue[0].cookie].path == src
  }

  /** The reading at which the first half with this cookie was last handled, `before` if not in this run. */
  ghost function FromClock(s: State, run: seq<Step>, c: nat, before: Option<int>): Option<int>
    requires ValidRun(s, run)
    decreases |run|
  {
    if run == [] then before
    else
      FromClock(Next(s, run[0]), run[1..], c, if TakesFrom(s, run[0], c) then Some(run[0].answer.now) else before)
  }

  /** The reading at which the second half of a move from this path was last handled. */
  ghost function ToClock(s: State, run: seq<Step>, src: string, before: Option<int>): Option<int>
    requires ValidRun(s, run)
    decreases |run|
  {
    if run == [] then before
    else ToClock(Next(s, run[0]), run[1..], src, if TakesTo(s, run[0], src) then Some(run[0].answer.now) else before)
  }

  /** A record is dated with the reading. */
  predicate Stamped<K>(records: map<K, Record>, k: K, reading: Option<int>) {
    k in records ==> reading == Some(records[k].date)
  }

  lemma StepStamps(s: State, step: Step, c: nat, src: string, from: Option<int>, to: Option<int>)
    requires Legal(s, step) && Stamped(s.table.cookies, c, from) && Stamped(s.table.moves, src, to)
    ensures Stamped(Next(s, step).table.cookies, c, if TakesFrom(s, step, c) then Some(step.answer.now) else from)
    ensures Stamped(Next(s, step).table.moves, src, if TakesTo(s, step, src) then Some(step.answer.now) else to)
  {
    if step.Take? && s.queue[0].wd in s.table.watches {
      RecordedNow(s.table, s.queue[0], step.answer.now, step.answer.walk);
    } else if step.Clean? {
      KeptExactly(s.table, step.now);
    }
  }

  lemma {:induction false} RunStamps(s: State, run: seq<Step>, c: nat, src: string, from: Option<int>, to: Option<int>)
    requires ValidRun(s, run) && Stamped(s.table.cookies, c, from) && Stamped(s.table.moves, src, to)
    ensures Stamped(Run(s, run).table.cookies, c, FromClock(s, run, c, from))
    ensures Stamped(Run(s, run).table.moves, src, ToClock(s, run, src, to))
    decreases |run|
  {
    if run != [] {
      var step := run[0];
      StepStamps(s, step, c, src, from, to);
      RunStamps(Next(s, step), run[1..], c, src, if TakesFrom(s, step, c) then Some(step.answer.now) else from,
                if TakesTo(s, step, src) then Some(step.answer.now) else to);
    }
  }

  // ---- records still needed ----

  /** The second half of the move with this cookie is still queued. */
  predicate CookieNeeded(q: seq<Event>, c: nat) {
    exists e :: e in q && e.MovedTo? && e.cookie == c
  }

  /** Some MOVE_SELF still queued will ask where this path was moved. */
  predicate LookedUp(t: Table, q: seq<Event>, src: string)
    decreases |q|
  {
    |q| > 0 &&
    (|| (q[0].MoveSelf? && q[0].wd in t.watches && t.watches[q[0].wd].path == src)
     || LookedUp(Handle(t, q[0], 0, []), q[1..], src))
  }

  /** The tables have the same watches, and the same records as far as the queue needs them. */
  ghost predicate Suffices(t: Table, t': Table, q: seq<Event>) {
    && t'.watches == t.watches
    && (forall c :: CookieNeeded(q, c) ==> SameRecord(t.cookies, t'.cookies, c))
    && (forall p :: LookedUp(t, q, p) ==> SameRecord(t.moves, t'.moves, p))
  }

  predicate SameRecord<K>(a: map<K, Record>, b: map<K, Record>, k: K) {
    (k in a <==> k in b) && (k in a ==> a[k] == b[k])
  }

  lemma LaterNeeded(q: seq<Event>, c: nat)
    requires |q| > 0
    ensures CookieNeeded(q[1..], c) ==> CookieNeeded(q, c)
    ensures q[0].MovedTo? ==> CookieNeeded(q, q[0].cookie)
  {
    assert q == [q[0]] + q[1..];
    assert q[0] in q;
  }

  lemma SufficesStep(t: Table, t': Table, q: seq<Event>)
    requires |q| > 0 && Suffices(t, t', q)
    ensures Suffices(Handle(t, q[0], 0, []), Handle(t', q[0], 0, []), q[1..])
  {
    var e, u, u' := q[0], Handle(t, q[0], 0, []), Handle(t', q[0], 0, []);
    LaterNeeded(q, 0);
    assert e.MoveSelf? && e.wd in t.watches ==> LookedUp(t, q, t.watches[e.wd].path);
    forall c | CookieNeeded(q[1..], c)
      ensures SameRecord(u.cookies, u'.cookies, c)
    {
      LaterNeeded(q, c);
    }
    forall p | LookedUp(u, q[1..], p)
      ensures SameRecord(u.moves, u'.moves, p)
    {
      assert LookedUp(t, q, p);
    }
  }

  lemma {:induction false} SufficesDrain(t: Table, t': Table, q: seq<Event>)
    requires Suffices(t, t', q)
    ensures Drain(t', q).watches == Drain(t, q).watches
    decreases |q|
  {
    if |q| > 0 {
      SufficesStep(t, t', q);
      SufficesDrain(Handle(t, q[0], 0, []), Handle(t', q[0], 0, []), q[1..]);
    }
  }

  /** A clean-up is harmless when no record that it drops is still needed. */
  lemma UnneededHarmless(t: Table, q: seq<Event>, now: int)
    requires forall c :: c in t.cookies && CookieNeeded(q, c) ==> now - t.cookies[c].date <= MINUTE
    requires forall p :: p in t.moves && LookedUp(Undated(t), q, p) ==> now - t.moves[p].date <= MINUTE
    ensures Harmless(t, q, now)
  {
    var u, u' := Undated(t), Undated(OnCleanup(t, now));
    KeptExactly(t, now);
    forall c | CookieNeeded(q, c)
      ensures SameRecord(u.cookies, u'.cookies, c)
    {
    }
    forall p | LookedUp(u, q, p)
      ensures SameRecord(u.moves, u'.moves, p)
    {
    }
    SufficesDrain(u, u', q);
  }

  /** It is not more than a minute from the reading, if there is one. */
  predicate InTime(reading: Option<int>, now: int) {
    reading.Some? ==> now - reading.value <= 60_000_000
  }

  /**
   In a run that starts without records, a clean-up does no harm if it comes within a minute of the handling of every
   event whose record is still needed: of every MOVED_FROM whose MOVED_TO is still queued, and of every MOVED_TO from
   a path that a MOVE_SELF still queued will ask for.
   */
  lemma CleanByClock(s0: State, run: seq<Step>, now: int)
    requires s0.table.cookies == map[] && s0.table.moves == map[] && ValidRun(s0, run)
    requires Legal(Run(s0, run), Clean(now))
    requires var s := Run(s0, run);
             && (forall c :: CookieNeeded(Pending(s), c) ==> InTime(FromClock(s0, run, c, None), now))
             && (forall p :: LookedUp(Undated(s.table), Pending(s), p) ==> InTime(ToClock(s0, run, p, None), now))
    ensures Smooth(Run(s0, run), Clean(now)) && ValidRun(s0, run + [Clean(now)])
  {
    var s := Run(s0, run);
    forall c | c in s.table.cookies && CookieNeeded(Pending(s), c)
      ensures now - s.table.cookies[c].date <= MINUTE
    {
      RunStamps(s0, run, c, "", None, None);
    }
    forall p | p in s.table.moves && LookedUp(Undated(s.table), Pending(s), p)
      ensures now - s.table.moves[p].date <= MINUTE
    {
      RunStamps(s0, run, 0, p, None, None);
    }
    UnneededHarmless(s.table, Pending(s), now);
    RunAppend(s0, run, Clean(now));
  }

  // ---- a move that a clean-up falls into ----

  /** The table between the two halves of a move: the first half recorded, then cleaned up. */
  ghost function Between(tree: Tree, t: Table, at: Attachment, op: Op, recorded: int, cleaned: int): Table
    requires Agrees(tree, t, at) && op.Move? && Possible(tree, at, op)
    requires WatchOf(at, tree.entry[op.n].parent).Some?
  {
    OnCleanup(Handle(t, FromEvent(tree, at, op)[0], recorded, []), cleaned)
  }

  lemma BetweenRecords(tree: Tree, t: Table, at: Attachment, op: Op, recorded: int, cleaned: int)
    requires Agrees(tree, t, at) && op.Move? && Possible(tree, at, op)
    requires WatchOf(at, tree.entry[op.n].parent).Some?
    ensures var t' := Between(tree, t, at, op, recorded, cleaned);
            && t'.watches == t.watches && t'.moves.Keys <= t.moves.Keys
            && (op.cookie in t'.cookies <==> cleaned - recorded <= 60_000_000)
            && (op.cookie in t'.cookies ==> t'.cookies[op.cookie].path == PathStr(PathOf(tree, op.n)))
  {
    var e := FromEvent(tree, at, op)[0];
    FromRecorded(tree, t, at, op);
    DrainOne(t, e);
    RecordedNow(t, e, recorded, []);
    KeptExactly(Handle(t, e, recorded, []), cleaned);
    assert Handle(t, e, recorded, []).cookies[op.cookie].path == Handle(t, e, 0, []).cookies[op.cookie].path;
  }

  /** In time: the second half finds the first, and the table is right. */
  lemma CleanedInTime(tree: Tree, dirs: set<Inode>, t: Table, at: Attachment, op: Op)
    requires Agrees(tree, t, at) && op.Move? && Possible(tree, at, op)
    requires WatchOf(at, op.parent).Some? && WatchOf(at, op.n).Some?
    requires op.cookie in t.cookies && t.cookies[op.cookie].path == PathStr(PathOf(tree, op.n))
    ensures Agrees(After(tree, op), Drain(t, ToEvent(dirs, at, op) + SelfEvent(at, op)), at)
  {
    var t' := Drain(t, ToEvent(dirs, at, op));
    ToRecorded(tree, dirs, t, at, op);
    DrainConcat(t, ToEvent(dirs, at, op), SelfEvent(at, op));
    SelfAgrees(tree, t', at, op, WatchOf(at, op.n).value);
  }

  /** Too late: MOVED_TO finds no record, and MOVE_SELF marks the path unknown, whatever the walk adds between them. */
  lemma CleanedTooLate(tree: Tree, t: Table, at: Attachment, op: Op, at': Attachment, self: Wd)
    requires WellFormed(tree) && op.Move? && Possible(tree, at, op) && !EndsWith(op.name, UNKNOWN)
    requires t.watches.Keys == at'.Keys && self in at' && at'[self] == op.n
    requires || Named(tree, op.n, t.watches[self].path)
             || Named(After(tree, op), op.n, t.watches[self].path)
    requires PathStr(PathOf(tree, op.n)) !in t.moves && PathStr(PathOf(tree, op.parent) + [op.name]) !in t.moves
    ensures !Agrees(After(tree, op), Handle(t, MoveSelf(self), 0, []), at')
  {
    var path, dst := t.watches[self].path, PathStr(PathOf(tree, op.parent) + [op.name]);
    MovedSelf(tree, op.n, op.parent, op.name);
    RenameWellFormed(tree, op.n, op.parent, op.name);
    NamedBy(tree, op.parent, PathOf(tree, op.parent));
    TargetUnmarked(PathOf(tree, op.parent), op.name);
    if Named(tree, op.n, path) {
      MarkedWrong(tree, op.n, op.parent, op.name, path);
    } else {
      assert path == dst && |dst + UNKNOWN| != |dst|;
    }
    assert self in Handle(t, MoveSelf(self), 0, []).watches;
  }

  /** A tracked move of something watched, its first half handled, cleaned up after, and then its second half. */
  ghost predicate Split(tree: Tree, t: Table, at: Attachment, op: Op) {
    && Agrees(tree, t, at) && op.Move? && Possible(tree, at, op) && NoLeftovers(tree, t, op)
    && WatchOf(at, tree.entry[op.n].parent).Some? && WatchOf(at, op.parent).Some? && WatchOf(at, op.n).Some?
  }

  /** What the system answers to MOVED_TO, if it is asked: paths as they are, with the descriptors there. */
  ghost predicate AnsweredTo(tree: Tree, dirs: set<Inode>, t: Table, at: Attachment, op: Op, walk: seq<Found>,
                             at': Attachment)
    requires op.Move? && WatchOf(at, op.parent).Some? && t.watches.Keys == at.Keys
  {
    var e := ToEvent(dirs, at, op)[0];
    if AddingPath(t, e).Some? then Answered(After(tree, op), at, at', walk, t.watches[e.wd].exclude) else at' == at
  }

  /**
   A clean-up between the two halves of a move: the table is right in the end exactly if the clean-up came within a
   minute of the first half.
   */
  lemma SplitMoveExactly(tree: Tree, dirs: set<Inode>, t: Table, at: Attachment, op: Op, recorded: int, cleaned: int,
                         now: int, walk: seq<Found>, at': Attachment)
    requires Split(tree, t, at, op)
    requires AnsweredTo(tree, dirs, Between(tree, t, at, op, recorded, cleaned), at, op, walk, at')
    ensures Agrees(After(tree, op), HandleAll(Between(tree, t, at, op, recorded, cleaned),
                                              ToEvent(dirs, at, op) + SelfEvent(at, op), now, walk), at')
       <==> cleaned - recorded <= 60_000_000
  {
    var t1, q := Between(tree, t, at, op, recorded, cleaned), ToEvent(dirs, at, op) + SelfEvent(at, op);
    var u, to, self := Undated(t1), ToEvent(dirs, at, op)[0], WatchOf(at, op.n).value;
    BetweenRecords(tree, t, at, op, recorded, cleaned);
    UndatedAll(t1, q, now, walk);
    UndatedHandle(t1, to, now, walk);
    assert q == [to, MoveSelf(self)] && q[1..] == [MoveSelf(self)];
    HandleOne(Handle(u, to, 0, walk), MoveSelf(self), 0, walk);
    if cleaned - recorded <= 60_000_000 {
      CleanedInTime(tree, dirs, u, at, op);
      assert Handle(u, to, 0, walk) == Handle(u, to, 0, []);
      DrainTwo(u, to, MoveSelf(self));
    } else {
      LateWatch(tree, u, at, op, to, walk, at', self);
      CleanedTooLate(tree, Handle(u, to, 0, walk), at, op, at', self);
    }
  }

  lemma DrainTwo(t: Table, a: Event, b: Event)
    ensures Drain(t, [a] + [b]) == Handle(Handle(t, a, 0, []), b, 0, [])
  {
    DrainConcat(t, [a], [b]);
    DrainOne(t, a);
    DrainOne(Drain(t, [a]), b);
  }

  /** After MOVED_TO without a record, the watch of the moved inode has its former path, or its new one. */
  lemma LateWatch(tree: Tree, t: Table, at: Attachment, op: Op, to: Event, walk: seq<Found>, at': Attachment, self: Wd)
    requires Agrees(tree, t, at) && op.Move? && self in at && at[self] == op.n && to.MovedTo? && to.wd in t.watches
    requires to.cookie !in t.cookies
    requires if AddingPath(t, to).Some? then Answered(After(tree, op), at, at', walk, t.watches[to.wd].exclude)
             else at' == at
    ensures var t' := Handle(t, to, 0, walk);
            && t'.watches.Keys == at'.Keys && t'.moves == t.moves && self in at' && at'[self] == op.n
            && (Named(tree, op.n, t'.watches[self].path) || Named(After(tree, op), op.n, t'.watches[self].path))
  {
    if AddingPath(t, to).Some? {
      var exclude := t.watches[to.wd].exclude;
      WalkedNamed(After(tree, op), t.watches, at, walk, exclude, at');
      AddFoundAt(t.watches, walk, exclude, self);
    }
  }
}
