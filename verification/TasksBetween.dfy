/** The tasks on the dependency paths between two tasks: a depth-first search over one shared chain. */
module TasksBetween {
  import opened Sequences

  /** The recipe's tasks, and what each depends on. */
  datatype Graph = Graph(tasks: seq<string>, deps: string -> set<string>)

  /** b comes right after a: the search goes from a task to those that list it as a dependency. */
  predicate Edge(g: Graph, a: string, b: string) {
    b in g.tasks && b != a && a in g.deps(b)
  }

  /** A walk along edges that does not go on once it has met the end task. */
  ghost predicate Walk(g: Graph, end: string, w: seq<string>) {
    w != [] && forall i :: 0 <= i < |w| - 1 ==> w[i] != end && Edge(g, w[i], w[i + 1])
  }

  ghost predicate Distinct(s: seq<string>) {
    forall i, j :: 0 <= i < j < |s| ==> s[i] != s[j]
  }

  /** No walk that starts with p meets a task twice. */
  ghost predicate NoRepeat(g: Graph, end: string, p: seq<string>) {
    forall w :: Walk(g, end, w) && p <= w ==> Distinct(w)
  }

  /** x is on some walk that starts with p and arrives at the end task. */
  ghost predicate OnWalk(g: Graph, end: string, p: seq<string>, x: string) {
    exists w :: Walk(g, end, w) && p <= w && w[|w| - 1] == end && x in w
  }

  /** The end task's chain is copied while looping over the other tasks, so there must be one. */
  predicate HasOther(g: Graph, end: string) {
    OtherUpTo(g, end, |g.tasks|)
  }

  predicate OtherUpTo(g: Graph, end: string, i: nat)
    requires i <= |g.tasks|
  {
    exists j :: 0 <= j < i && g.tasks[j] != end
  }

  class Search {
    const g: Graph
    const end: string
    ghost const universe: set<string>
    var chain: seq<string>
    var outtasks: seq<string>

    constructor (g: Graph, start: string, end: string)
      ensures this.g == g && this.end == end && chain == [] && outtasks == []
      ensures universe == (set t | t in g.tasks) + {start}
    {
      this.g, this.end, chain, outtasks := g, end, [], [];
      universe := (set t | t in g.tasks) + {start};
    }

    /** `follow_chain`; False stands for the fatal error of a circular dependency. */
    method FollowChain(task: string) returns (ok: bool)
      requires task in universe && (set t | t in g.tasks) <= universe && (set t | t in chain) <= universe
      requires Distinct(chain) && Distinct(outtasks) && Walk(g, end, chain + [task])
      modifies this
      ensures Distinct(outtasks) && old(outtasks) <= outtasks
      ensures ok <==> NoRepeat(g, end, old(chain) + [task])
      ensures ok ==> chain == old(chain)
      ensures ok ==> forall x :: x in outtasks <==>
                x in old(outtasks) || (HasOther(g, end) && OnWalk(g, end, old(chain) + [task], x))
      decreases universe - set t | t in chain
    {
      ghost var p := chain + [task];
      assert p[|p| - 1] == task;
      if task in chain {
        RepeatFound(g, end, chain, task);
        return false;
      }
      ghost var visited := set t | t in chain;
      chain := chain + [task];
      assert (set t | t in chain) == visited + {task};
      ghost var before := outtasks;
      if task == end {
        WalkEnds(g, end, p);
      }
      for i := 0 to |g.tasks|
        invariant chain == p && Distinct(chain) && Distinct(outtasks) && before <= outtasks
        invariant task == end ==>
                    forall x :: x in outtasks <==> x in before || (OtherUpTo(g, end, i) && x in p)
        invariant task != end ==> NoRepeatUpTo(g, end, p, i)
        invariant task != end ==>
                    forall x :: x in outtasks <==> x in before || (HasOther(g, end) && OnWalkUpTo(g, end, p, i, x))
      {
        var othertask := g.tasks[i];
        ghost var sofar := outtasks;
        if othertask == task {
          NotAfterItself(g, end, p, i);
          continue;
        }
        if task == end {
          CopyChain();
        } else if task in g.deps(othertask) {
          WalkOn(g, end, p, othertask);
          ok := FollowChain(othertask);
          if !ok {
            NoRepeatPrefix(g, end, p, othertask);
            return false;
          }
          TakenEdge(g, end, p, i);
        } else {
          NotAfterItself(g, end, p, i);
        }
      }
      if task != end {
        AllEdges(g, end, p);
      } else {
        assert forall x :: OnWalk(g, end, p, x) <==> x in p;
      }
      assert forall x :: x in outtasks <==> x in before || (HasOther(g, end) && OnWalk(g, end, p, x));
      chain := chain[..|chain| - 1];
      ok := true;
    }

    /** The inner loop: what is on the chain and not yet in the result is appended. */
    method CopyChain()
      requires Distinct(outtasks)
      modifies this`outtasks
      ensures Distinct(outtasks) && old(outtasks) <= outtasks
      ensures forall x :: x in outtasks <==> x in old(outtasks) || x in chain
    {
      for k := 0 to |chain|
        invariant Distinct(outtasks) && old(outtasks) <= outtasks
        invariant forall x :: x in outtasks <==> x in old(outtasks) || x in chain[..k]
      {
        if chain[k] !in outtasks {
          outtasks := outtasks + [chain[k]];
        }
      }
    }
  }

  /**
   `tasksbetween`: fails exactly when a walk from the start task meets a task twice, and otherwise returns,
   each once, exactly the tasks on the walks from start to end (none if there is no task but the end).
   */
  method TasksBetween(g: Graph, start: string, end: string) returns (r: Option<seq<string>>)
    ensures r.Some? <==> NoRepeat(g, end, [start])
    ensures r.Some? ==> Distinct(r.value)
    ensures r.Some? ==> forall x :: x in r.value <==>
              (exists t :: t in g.tasks && t != end) && OnWalk(g, end, [start], x)
  {
    var search := new Search(g, start, end);
    assert search.chain + [start] == [start];
    var ok := search.FollowChain(start);
    r := if ok then Some(search.outtasks) else None;
    OtherTask(g, end);
  }

  lemma OtherTask(g: Graph, end: string)
    ensures HasOther(g, end) <==> exists t :: t in g.tasks && t != end
  {
    if HasOther(g, end) {
      var j :| 0 <= j < |g.tasks| && g.tasks[j] != end;
      assert g.tasks[j] in g.tasks;
    } else {
      forall t | t in g.tasks
        ensures t == end
      {
        var j :| 0 <= j < |g.tasks| && g.tasks[j] == t;
      }
    }
  }

  // ---- walks ----

  /** No repetition in any walk that goes on from p to one of the first i tasks. */
  ghost predicate NoRepeatUpTo(g: Graph, end: string, p: seq<string>, i: nat)
    requires p != [] && i <= |g.tasks|
  {
    forall j :: 0 <= j < i && Edge(g, p[|p| - 1], g.tasks[j]) ==> NoRepeat(g, end, p + [g.tasks[j]])
  }

  ghost predicate OnWalkUpTo(g: Graph, end: string, p: seq<string>, i: nat, x: string)
    requires p != [] && i <= |g.tasks|
  {
    exists j :: 0 <= j < i && Edge(g, p[|p| - 1], g.tasks[j]) && OnWalk(g, end, p + [g.tasks[j]], x)
  }

  lemma RepeatFound(g: Graph, end: string, chain: seq<string>, task: string)
    requires Walk(g, end, chain + [task]) && task in chain
    ensures !NoRepeat(g, end, chain + [task])
  {
    var w := chain + [task];
    var i :| 0 <= i < |chain| && chain[i] == task;
    assert w[i] == w[|chain|] && !Distinct(w);
  }

  /** A walk that has arrived goes nowhere. */
  lemma WalkEnds(g: Graph, end: string, p: seq<string>)
    requires Walk(g, end, p) && p[|p| - 1] == end
    ensures forall w :: Walk(g, end, w) && p <= w ==> w == p
    ensures NoRepeat(g, end, p) <==> Distinct(p)
    ensures forall x :: OnWalk(g, end, p, x) <==> x in p
  {
    forall w | Walk(g, end, w) && p <= w
      ensures w == p
    {
      assert w[|p| - 1] == end;
    }
  }

  lemma WalkOn(g: Graph, end: string, p: seq<string>, t: string)
    requires Walk(g, end, p) && p[|p| - 1] != end && Edge(g, p[|p| - 1], t)
    ensures Walk(g, end, p + [t])
  {
  }

  lemma NoRepeatPrefix(g: Graph, end: string, p: seq<string>, t: string)
    requires !NoRepeat(g, end, p + [t])
    ensures !NoRepeat(g, end, p)
  {
    var w :| Walk(g, end, w) && p + [t] <= w && !Distinct(w);
    assert p <= p + [t];
  }

  lemma NotAfterItself(g: Graph, end: string, p: seq<string>, i: nat)
    requires p != [] && i < |g.tasks| && !Edge(g, p[|p| - 1], g.tasks[i])
    ensures NoRepeatUpTo(g, end, p, i) ==> NoRepeatUpTo(g, end, p, i + 1)
    ensures forall x :: OnWalkUpTo(g, end, p, i, x) <==> OnWalkUpTo(g, end, p, i + 1, x)
  {
  }

  lemma TakenEdge(g: Graph, end: string, p: seq<string>, i: nat)
    requires p != [] && i < |g.tasks| && Edge(g, p[|p| - 1], g.tasks[i])
    requires NoRepeatUpTo(g, end, p, i) && NoRepeat(g, end, p + [g.tasks[i]])
    ensures NoRepeatUpTo(g, end, p, i + 1)
    ensures forall x :: OnWalkUpTo(g, end, p, i + 1, x) <==>
              OnWalkUpTo(g, end, p, i, x) || OnWalk(g, end, p + [g.tasks[i]], x)
  {
  }

  /** Every longer walk takes some edge to a task. */
  lemma AllEdges(g: Graph, end: string, p: seq<string>)
    requires Walk(g, end, p) && Distinct(p) && p[|p| - 1] != end && NoRepeatUpTo(g, end, p, |g.tasks|)
    ensures NoRepeat(g, end, p)
    ensures forall x :: OnWalk(g, end, p, x) <==> OnWalkUpTo(g, end, p, |g.tasks|, x)
  {
    forall w | Walk(g, end, w) && p <= w && w != p
      ensures exists j :: 0 <= j < |g.tasks| && Edge(g, p[|p| - 1], g.tasks[j]) && p + [g.tasks[j]] <= w
    {
      NextTask(g, end, p, w);
    }
    forall x
      ensures OnWalk(g, end, p, x) <==> OnWalkUpTo(g, end, p, |g.tasks|, x)
    {
      if OnWalk(g, end, p, x) {
        var w :| Walk(g, end, w) && p <= w && w[|w| - 1] == end && x in w;
        var j :| 0 <= j < |g.tasks| && Edge(g, p[|p| - 1], g.tasks[j]) && p + [g.tasks[j]] <= w;
        assert OnWalk(g, end, p + [g.tasks[j]], x);
      }
      if OnWalkUpTo(g, end, p, |g.tasks|, x) {
        var j :| 0 <= j < |g.tasks| && Edge(g, p[|p| - 1], g.tasks[j]) && OnWalk(g, end, p + [g.tasks[j]], x);
        var w :| Walk(g, end, w) && p + [g.tasks[j]] <= w && w[|w| - 1] == end && x in w;
        assert p <= p + [g.tasks[j]] <= w;
      }
    }
  }

  lemma NextTask(g: Graph, end: string, p: seq<string>, w: seq<string>)
    requires p != [] && Walk(g, end, w) && p <= w && w != p
    ensures exists j :: 0 <= j < |g.tasks| && Edge(g, p[|p| - 1], g.tasks[j]) && p + [g.tasks[j]] <= w
  {
    var t := w[|p|];
    assert w[|p| - 1] == p[|p| - 1] && Edge(g, w[|p| - 1], w[|p| - 1 + 1]);
    var j :| 0 <= j < |g.tasks| && g.tasks[j] == t;
    assert p + [t] <= w;
  }

  // ---- cycles ----

  /** A closed walk of edges. */
  /** Task b, of the recipe, lists another task among its dependencies. */
  ghost predicate DependsOn(g: Graph, b: string, a: string) {
    a in g.deps(b) && b in g.tasks && a != b
  }

  ghost predicate Cycle(g: Graph, c: seq<string>) {
    |c| > 1 && c[0] == c[|c| - 1] && forall i :: 0 <= i < |c| - 1 ==> DependsOn(g, c[i + 1], c[i])
  }

  /** The fatal error is only ever raised over a real cycle, so never on an acyclic graph. */
  lemma ErrorMeansCycle(g: Graph, start: string, end: string)
    requires !NoRepeat(g, end, [start])
    ensures exists c :: Cycle(g, c)
  {
    var w :| Walk(g, end, w) && [start] <= w && !Distinct(w);
    var i, j :| 0 <= i < j < |w| && w[i] == w[j];
    var c := w[i..j + 1];
    forall k | 0 <= k < |c| - 1
      ensures DependsOn(g, c[k + 1], c[k])
    {
      assert Edge(g, w[i + k], w[i + k + 1]);
    }
    assert Cycle(g, c);
  }

  /** A cycle that the start task reaches before the end task is always found. */
  lemma CycleIsFound(g: Graph, start: string, end: string, w: seq<string>, c: seq<string>)
    requires Walk(g, end, w) && w[0] == start && Cycle(g, c) && c[0] == w[|w| - 1] && end !in c
    ensures !NoRepeat(g, end, [start])
  {
    var v := w + c[1..];
    forall i | 0 <= i < |v| - 1
      ensures v[i] != end && Edge(g, v[i], v[i + 1])
    {
      if i >= |w| - 1 {
        assert v[i] == c[i - |w| + 1] && v[i + 1] == c[i - |w| + 2];
      }
    }
    assert Walk(g, end, v);
    assert v[|w| - 1] == v[|v| - 1] && |w| - 1 < |v| - 1;
    assert !Distinct(v);
    assert [start] <= v;
  }

  ghost predicate DependencyPath(g: Graph, start: string, end: string, path: seq<string>) {
    path != [] && path[0] == start && path[|path| - 1] == end
    && forall i :: 0 <= i < |path| - 1 ==> DependsOn(g, path[i + 1], path[i])
  }

  /** Without cycles, being on a walk is being on any dependency path from start to end. */
  lemma OnWalkIsOnPath(g: Graph, start: string, end: string, x: string)
    requires !exists c :: Cycle(g, c)
    ensures OnWalk(g, end, [start], x) <==> exists path :: DependencyPath(g, start, end, path) && x in path
  {
    if OnWalk(g, end, [start], x) {
      var w :| Walk(g, end, w) && [start] <= w && w[|w| - 1] == end && x in w;
      assert DependencyPath(g, start, end, w);
    }
    if path :| DependencyPath(g, start, end, path) && x in path {
      forall i | 0 <= i < |path| - 1
        ensures path[i] != end
      {
        if path[i] == end {
          var c := path[i..];
          forall k | 0 <= k < |c| - 1
            ensures DependsOn(g, c[k + 1], c[k])
          {
            assert DependsOn(g, path[i + k + 1], path[i + k]);
          }
          assert Cycle(g, c);
        }
      }
      assert Walk(g, end, path) && [start] <= path;
    }
  }
}
