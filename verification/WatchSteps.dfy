/**
 What handling one event means for the watches beside their paths: where watches are added, what they inherit, what is
 queued; and that draining the queue is a run of such steps.
 */
module WatchSteps {
  import opened Sequences
  import opened Paths
  import opened FileTree
  import opened Watches
  import opened WatchTable
  import opened WatchTableRuns

  // ---- where watches are added ----

  /** A directory made in a directory that is watched with auto-add is watched too, unless the filter excludes it. */
  lemma CreateAddsExactly(tree: Tree, t: Table, at: Attachment, d: Wd, p: seq<string>, name: string, isDir: bool)
    requires Agrees(tree, t, at) && d in t.watches && At(tree, at[d], p) && ValidName(name)
    ensures var path, w := PathStr(p + [name]), t.watches[d];
            AddingPath(t, Created(d, name, isDir)) ==
            if isDir && w.autoAdd && !w.exclude(path) then Some(path) else None
  {
    WatchPath(tree, t, at, d, p);
    ChildPath(p, name);
  }

  /** So is a directory moved there, if nothing is known of where it came from. */
  lemma MovedToAddsExactly(tree: Tree, t: Table, at: Attachment, d: Wd, p: seq<string>, cookie: nat, name: string,
                           isDir: bool)
    requires Agrees(tree, t, at) && d in t.watches && At(tree, at[d], p) && ValidName(name)
    ensures var path, w := PathStr(p + [name]), t.watches[d];
            AddingPath(t, MovedTo(d, cookie, name, isDir)) ==
            if cookie !in t.cookies && isDir && w.autoAdd && !w.exclude(path) then Some(path) else None
  {
    WatchPath(tree, t, at, d, p);
    ChildPath(p, name);
  }

  /** No other event adds watches. */
  lemma OthersAddNothing(t: Table, e: Event, now: int, walk: seq<Found>)
    requires e.wd in t.watches && !e.Created? && !e.MovedTo?
    ensures AddingPath(t, e) == None && Handle(t, e, now, walk).watches.Keys <= t.watches.Keys
  {
  }

  // ---- what watches inherit and keep ----

  ghost predicate SameFlags(w: Watch, v: Watch) {
    w.autoAdd == v.autoAdd && w.exclude == v.exclude
  }

  lemma {:induction false} AddedFlags(watches: map<Wd, Watch>, walk: seq<Found>, exclude: string -> bool, d: Wd)
    requires d in AddFound(watches, walk, exclude)
    ensures var w := AddFound(watches, walk, exclude)[d];
            if AddedIn(walk, exclude, d) then w.autoAdd && w.exclude == exclude else d in watches && w == watches[d]
    decreases |walk|
  {
    if walk != [] {
      var f, rest := walk[0], walk[1..];
      assert walk == [f] + rest;
      var first := if Added(f, exclude) then watches[f.wd := Watch(NormPath(f.path), true, exclude)] else watches;
      AddedFlags(first, rest, exclude, d);
      assert AddedIn(walk, exclude, d) <==> (Added(f, exclude) && f.wd == d) || AddedIn(rest, exclude, d);
    }
  }

  /** Watches added inherit filter and auto-add from the one that added them; all others keep what they have. */
  lemma FlagsKept(t: Table, e: Event, now: int, walk: seq<Found>, d: Wd)
    requires d in Handle(t, e, now, walk).watches
    ensures var w := Handle(t, e, now, walk).watches[d];
            if e.wd in t.watches && AddingPath(t, e).Some? && AddedIn(walk, t.watches[e.wd].exclude, d)
            then SameFlags(w, t.watches[e.wd]) else d in t.watches && SameFlags(w, t.watches[d])
  {
    if e.wd in t.watches && AddingPath(t, e).Some? {
      AddedFlags(t.watches, walk, t.watches[e.wd].exclude, d);
    }
  }

  // ---- what is queued ----

  /** The entries of a new directory are queued exactly if it got a descriptor, and is watched then. */
  lemma QueuedExactly(t: Table, e: Event, path: string, wd: int, now: int, inner: seq<Event>)
    requires e.Created? && e.wd in t.watches && AddingPath(t, e) == Some(path)
    ensures Queued(t, e, Answer(now, [Found(path, wd)], inner)) == if wd > 0 then inner else []
    ensures wd > 0 ==> wd in Handle(t, e, now, [Found(path, wd)]).watches
  {
    AddFoundAt(t.watches, [Found(path, wd)], t.watches[e.wd].exclude, if wd > 0 then wd else 0);
    assert [Found(path, wd)][0] in [Found(path, wd)];
    assert !t.watches[e.wd].exclude(path);
    assert wd > 0 ==> AddedIn([Found(path, wd)], t.watches[e.wd].exclude, wd);
  }

  lemma OthersQueueNothing(t: Table, e: Event, a: Answer)
    requires e.wd !in t.watches || AddingPath(t, e).None? || !e.Created?
    ensures Queued(t, e, a) == []
  {
  }

  // ---- draining is a run ----

  function Takes(answers: seq<Answer>, ats: seq<Attachment>): seq<Step>
    requires |answers| == |ats|
  {
    if |answers| == 0 then [] else [Take(answers[0], ats[0])] + Takes(answers[1..], ats[1..])
  }

  /** Draining takes the events one after the other, those queued meanwhile last, and leaves an empty queue. */
  lemma {:induction false} DrainedIsRun(s: State, answers: seq<Answer>, ats: seq<Attachment>)
    requires |answers| == |ats| && Enough(s.table, s.queue, answers) && ValidRun(s, Takes(answers, ats))
    ensures var s' := Run(s, Takes(answers, ats));
            s'.table == Drained(s.table, s.queue, answers) && s'.queue == [] && s'.kernel == s.kernel
    decreases |answers|
  {
    if |answers| > 0 {
      var step, rest := Take(answers[0], ats[0]), Takes(answers[1..], ats[1..]);
      assert Takes(answers, ats)[0] == step && Takes(answers, ats)[1..] == rest;
      DrainedIsRun(Next(s, step), answers[1..], ats[1..]);
    }
  }

  /** So `process_events`, which drains and cleans up, keeps the table on course along a valid run. */
  lemma ProcessedOnCourse(s: State, answers: seq<Answer>, ats: seq<Attachment>, end: int)
    requires OnCourse(s) && |answers| == |ats| && Enough(s.table, s.queue, answers)
    requires ValidRun(s, Takes(answers, ats))
    requires var s' := Run(s, Takes(answers, ats)); Legal(s', Clean(end)) && Smooth(s', Clean(end))
    ensures var s' := Run(s, Takes(answers, ats));
            Agrees(s'.tree, Drain(Undated(OnCleanup(Drained(s.table, s.queue, answers), end)), s.kernel), s'.at)
  {
    var s' := Run(s, Takes(answers, ats));
    RunOnCourse(s, Takes(answers, ats));
    DrainedIsRun(s, answers, ats);
    CleanOnCourse(s', end);
    assert [] + s.kernel == s.kernel;
  }
}
