/**
 Deciding which cached recipes are still good: the sets of checked and of clean names beside the cache. A world
 gives the modification times (0 for a file that is not there) and says which files exist.
 */
module RecipeValidity {
  import opened Sequences
  import opened RecipeStore
  import opened VirtualNames
  import opened ChecksumLists

  datatype World = World(mtime: string -> int, present: string -> bool)

  datatype State = State(clean: set<string>, checked: set<string>, cache: Cache)

  function Remove(s: State, fn: string): State {
    s.(cache := s.cache - {fn}, clean := s.clean - {fn})
  }

  /** Same also stands for "go on"; Raised for the error on a piece without a colon. */
  datatype Verdict = Same | Changed | Raised

  function PieceVerdict(piece: string, w: World): Verdict {
    if piece == "" then Same
    else match Parts(piece)
      case None => Raised
      case Some((f, exist)) => if (exist == "True" && !w.present(f)) || (exist == "False" && w.present(f))
             then Changed else Same
  }

  function PiecesVerdict(pieces: seq<string>, w: World): Verdict
    decreases |pieces|
  {
    if pieces == [] then Same
    else if PieceVerdict(pieces[0], w) != Same then PieceVerdict(pieces[0], w)
    else PiecesVerdict(pieces[1..], w)
  }

  function ListsVerdict(lists: seq<string>, w: World): Verdict
    decreases |lists|
  {
    if lists == [] then Same
    else if PiecesVerdict(Pieces(lists[0]), w) != Same then PiecesVerdict(Pieces(lists[0]), w)
    else ListsVerdict(lists[1..], w)
  }

  function Lists(core: Info): seq<string>
    requires core.Core?
  {
    if core.checksums.None? then [] else core.checksums.value
  }

  predicate DependsSame(depends: seq<(string, int)>, w: World) {
    forall d :: d in depends ==> w.mtime(d.0) == d.1
  }

  predicate There(cache: Cache, name: string, n: nat) {
    name in cache && |cache[name]| == n
  }

  predicate AllThere(cache: Cache, fn: string, variants: seq<string>, n: nat) {
    forall v :: v in variants ==> There(cache, VariantName(fn, v), n)
  }

  function Names(fn: string, variants: seq<string>): set<string> {
    set v | v in variants :: VariantName(fn, v)
  }

  /** `cacheValidUpdate`, with n kinds of information; None stands for an error raised on a malformed array or list. */
  function Update(s: State, fn: string, appends: seq<string>, w: World, n: nat): (State, Option<bool>) {
    var t := s.(checked := s.checked + {fn});
    if fn !in s.cache then (t, Some(false))
    else if w.mtime(fn) == 0 then (Remove(t, fn), Some(false))
    else if s.cache[fn] == [] || !s.cache[fn][0].Core? then (t, None)
    else
      var core := s.cache[fn][0];
      if w.mtime(fn) != core.timestamp || !DependsSame(core.depends, w) then (Remove(t, fn), Some(false))
      else match ListsVerdict(Lists(core), w)
        case Raised => (t, None)
        case Changed => (Remove(t, fn), Some(false))
        case Same =>
          if appends != core.appends then (Remove(t, fn), Some(false))
          else if AllThere(s.cache, fn, core.variants, n)
                    then (t.(clean := s.clean + Names(fn, core.variants) + {fn}), Some(true))
          else (t.(clean := s.clean - Names(fn, core.variants) - {fn}), Some(false))
  }

  /** `cacheValid` */
  function Check(s: State, fn: string, appends: seq<string>, w: World, n: nat): (State, Option<bool>) {
    if fn in s.checked then (s, Some(fn in s.clean))
    else
      var (t, r) := Update(s, fn, appends, w, n);
      (t, if r.None? then None else Some(fn in t.clean))
  }

  predicate HasCore(cache: Cache, fn: string) {
    fn in cache && cache[fn] != [] && cache[fn][0].Core?
  }

  /** `loadCached`; None stands for the error on a missing key. */
  function LoadCached(cache: Cache, fn: string): Option<seq<(string, seq<Info>)>> {
    if !HasCore(cache, fn) then None
    else
      var variants := cache[fn][0].variants;
      if forall v :: v in variants ==> VariantName(fn, v) in cache then
        Some(seq(|variants|, i requires 0 <= i < |variants| => (VariantName(fn, variants[i]),
                                                                At(cache, VariantName(fn, variants[i])))))
      else None
  }

  // ---- what "still good" means ----

  predicate FlagHolds(piece: string, w: World) {
    piece == "" ||
    (Parts(piece).Some? &&
     (Parts(piece).value.1 == "True" ==> w.present(Parts(piece).value.0)) &&
     (Parts(piece).value.1 == "False" ==> !w.present(Parts(piece).value.0)))
  }

  predicate FlagsHold(lists: seq<string>, w: World) {
    forall l, piece :: l in lists && piece in Pieces(l) ==> FlagHolds(piece, w)
  }

  /** Everything the cache recorded about the recipe is as it is now, and every variant has all its infos. */
  ghost predicate Fresh(cache: Cache, fn: string, appends: seq<string>, w: World, n: nat) {
    && fn in cache && cache[fn] != [] && cache[fn][0].Core?
    && var core := cache[fn][0];
    && w.mtime(fn) == core.timestamp != 0
    && (forall i :: 0 <= i < |core.depends| ==> w.mtime(core.depends[i].0) == core.depends[i].1)
    && (core.checksums.Some? ==> FlagsHold(core.checksums.value, w))
    && appends == core.appends
    && forall v :: v in core.variants ==> VariantName(fn, v) in cache && |cache[VariantName(fn, v)]| == n
  }

  lemma {:induction false} PiecesExactly(pieces: seq<string>, w: World)
    ensures PiecesVerdict(pieces, w) == Same <==> forall p :: p in pieces ==> FlagHolds(p, w)
    decreases |pieces|
  {
    if pieces != [] {
      PiecesExactly(pieces[1..], w);
      assert pieces == [pieces[0]] + pieces[1..];
      assert PieceVerdict(pieces[0], w) == Same <==> FlagHolds(pieces[0], w);
    }
  }

  lemma {:induction false} ListsExactly(lists: seq<string>, w: World)
    ensures ListsVerdict(lists, w) == Same <==> FlagsHold(lists, w)
    decreases |lists|
  {
    if lists != [] {
      PiecesExactly(Pieces(lists[0]), w);
      ListsExactly(lists[1..], w);
      assert lists == [lists[0]] + lists[1..];
    }
  }

  // ---- runs ----

  datatype Op =
    | CheckOp(fn: string, appends: seq<string>, world: World)
    | DropOp(fn: string)

  function Step(s: State, op: Op, n: nat): State {
    match op
    case CheckOp(fn, appends, w) => Check(s, fn, appends, w, n).0
    case DropOp(fn) => Remove(s, fn)
  }

  function Run(s: State, ops: seq<Op>, n: nat): State
    decreases |ops|
  {
    if ops == [] then s else Run(Step(s, ops[0], n), ops[1..], n)
  }

  /** The operations name recipe files without colons. */
  ghost predicate Plain(ops: seq<Op>) {
    forall op :: op in ops ==> ':' !in op.fn
  }

  ghost predicate Owned(name: string, checked: set<string>) {
    exists g, v :: g in checked && name == VariantName(g, v)
  }

  /** A clean name belongs to a checked file. */
  ghost predicate Inv(s: State) {
    && (forall g :: g in s.checked ==> ':' !in g)
    && (forall name :: name in s.clean ==> Owned(name, s.checked))
  }

  lemma OwnName(fn: string)
    ensures VariantName(fn, "") == fn
  {
  }

  lemma OwnedMore(name: string, checked: set<string>, more: set<string>)
    requires Owned(name, checked) && checked <= more
    ensures Owned(name, more)
  {
    var g, v :| g in checked && name == VariantName(g, v);
    assert g in more;
  }

  lemma OwnedNames(fn: string, variants: seq<string>, checked: set<string>)
    requires fn in checked
    ensures forall name :: name in Names(fn, variants) + {fn} ==> Owned(name, checked)
  {
    OwnName(fn);
    forall name | name in Names(fn, variants) + {fn}
      ensures Owned(name, checked)
    {
      if name == fn {
        assert name == VariantName(fn, "");
      } else {
        var v :| v in variants && name == VariantName(fn, v);
      }
    }
  }

  /** A step adds to the clean names only names of the file it checks, and to the checked names only that file. */
  lemma StepAdds(s: State, op: Op, n: nat)
    ensures forall name :: name in Step(s, op, n).clean ==>
              name in s.clean || (name in NamesNow(s, op.fn) && op.fn in Step(s, op, n).checked)
    ensures s.checked <= Step(s, op, n).checked <= s.checked + {op.fn}
  {
  }

  /** The names under which a file's cached variants are known. */
  function NamesNow(s: State, fn: string): set<string> {
    {fn} + if HasCore(s.cache, fn) then Names(fn, s.cache[fn][0].variants) else {}
  }

  lemma StepInv(s: State, op: Op, n: nat)
    requires Inv(s) && ':' !in op.fn
    ensures Inv(Step(s, op, n))
  {
    var t := Step(s, op, n);
    StepAdds(s, op, n);
    forall name | name in t.clean
      ensures Owned(name, t.checked)
    {
      if name in s.clean {
        OwnedMore(name, s.checked, t.checked);
      } else {
        OwnedNames(op.fn, if HasCore(s.cache, op.fn) then s.cache[op.fn][0].variants else [], t.checked);
      }
    }
  }

  /** A file without colons that was not checked is not clean. */
  lemma UncheckedUnclean(s: State, fn: string)
    requires Inv(s) && ':' !in fn && fn !in s.checked
    ensures fn !in s.clean
  {
    if fn in s.clean {
      var g, v :| g in s.checked && fn == VariantName(g, v);
      OwnName(fn);
      VariantsDisjoint(g, v, fn, "");
      assert false;
    }
  }

  /** The first check of a recipe answers yes exactly when everything recorded still holds. */
  lemma FirstCheckExactly(s: State, fn: string, appends: seq<string>, w: World, n: nat)
    requires Inv(s) && ':' !in fn && fn !in s.checked
    ensures Check(s, fn, appends, w, n).1 == Some(true) <==> Fresh(s.cache, fn, appends, w, n)
  {
    UncheckedUnclean(s, fn);
    if HasCore(s.cache, fn) {
      ListsExactly(Lists(s.cache[fn][0]), w);
    }
  }

  /** A recipe that passed its check: clean, with all its variants there. */
  ghost predicate Settled(s: State, fn: string, n: nat) {
    && fn in s.checked && fn in s.clean
    && HasCore(s.cache, fn)
    && AllThere(s.cache, fn, s.cache[fn][0].variants, n)
  }

  /** The recipe and its variants are in the cache as they were. */
  ghost predicate Untouched(s: State, t: State, fn: string) {
    && HasCore(s.cache, fn) && HasCore(t.cache, fn)
    && s.cache[fn] == t.cache[fn]
    && forall v :: v in s.cache[fn][0].variants ==> SameAt(s.cache, t.cache, VariantName(fn, v))
  }

  ghost predicate SameAt(c: Cache, d: Cache, name: string) {
    (name in c <==> name in d) && At(c, name) == At(d, name)
  }

  /** A step never takes from the cache anything but its own file. */
  lemma StepCache(s: State, op: Op, n: nat)
    ensures forall k :: k != op.fn ==> SameAt(s.cache, Step(s, op, n).cache, k)
    ensures op.CheckOp? && op.fn in s.checked ==> Step(s, op, n) == s
  {
  }

  /** Another file's names are not this file's. */
  lemma NotNamed(s: State, g: string, fn: string)
    requires ':' !in fn && ':' !in g && g != fn
    ensures fn !in NamesNow(s, g)
  {
    if fn in NamesNow(s, g) {
      var v :| v in s.cache[g][0].variants && fn == VariantName(g, v);
      OwnName(fn);
      VariantsDisjoint(g, v, fn, "");
      assert false;
    }
  }

  /** The clean names outside those of the file checked are as before. */
  lemma StepClean(s: State, op: Op, n: nat, name: string)
    requires name !in NamesNow(s, op.fn)
    ensures name in Step(s, op, n).clean <==> name in s.clean
  {
  }

  lemma StepSettled(s: State, op: Op, n: nat, fn: string)
    requires Settled(s, fn, n) && ':' !in fn && ':' !in op.fn
    requires op.DropOp? ==> op.fn != fn
    ensures Settled(Step(s, op, n), fn, n) && Untouched(s, Step(s, op, n), fn)
  {
    var t := Step(s, op, n);
    StepCache(s, op, n);
    if op.fn != fn {
      StepAdds(s, op, n);
      NotNamed(s, op.fn, fn);
      StepClean(s, op, n, fn);
      assert SameAt(s.cache, t.cache, fn);
      forall v | v in s.cache[fn][0].variants
        ensures SameAt(s.cache, t.cache, VariantName(fn, v))
      {
        OwnName(op.fn);
        if VariantName(fn, v) == op.fn {
          VariantsDisjoint(fn, v, op.fn, "");
        }
      }
    }
  }

  lemma {:induction false} RunSettled(s: State, ops: seq<Op>, n: nat, fn: string)
    requires Settled(s, fn, n) && ':' !in fn && Plain(ops) && DropOp(fn) !in ops
    ensures Settled(Run(s, ops, n), fn, n) && Untouched(s, Run(s, ops, n), fn)
    decreases |ops|
  {
    if ops != [] {
      assert ops == [ops[0]] + ops[1..];
      StepSettled(s, ops[0], n, fn);
      RunSettled(Step(s, ops[0], n), ops[1..], n, fn);
    }
  }

  lemma {:induction false} RunUnclean(s: State, ops: seq<Op>, n: nat, fn: string)
    requires fn in s.checked && fn !in s.clean && ':' !in fn && Plain(ops)
    ensures fn in Run(s, ops, n).checked && fn !in Run(s, ops, n).clean
    decreases |ops|
  {
    if ops != [] {
      assert ops == [ops[0]] + ops[1..];
      var op := ops[0];
      StepAdds(s, op, n);
      if op.fn != fn {
        NotNamed(s, op.fn, fn);
        StepClean(s, op, n, fn);
      } else {
        StepCache(s, op, n);
      }
      RunUnclean(Step(s, op, n), ops[1..], n, fn);
    }
  }

  lemma {:induction false} RunInv(s: State, ops: seq<Op>, n: nat)
    requires Inv(s) && Plain(ops)
    ensures Inv(Run(s, ops, n))
    decreases |ops|
  {
    if ops != [] {
      assert ops == [ops[0]] + ops[1..];
      StepInv(s, ops[0], n);
      RunInv(Step(s, ops[0], n), ops[1..], n);
    }
  }

  /**
   Any run, in worlds that may change, in which fn is first checked after `before` and not dropped in `after`: a
   later check repeats the first answer, whatever its world, and a recipe that was fresh then is loaded in full.
   */
  lemma AnswerIsStable(s: State, before: seq<Op>, after: seq<Op>, fn: string,
                       appends: seq<string>, w: World, later: seq<string>, w': World, n: nat)
    requires Inv(s) && Plain(before) && Plain(after) && ':' !in fn
    requires fn !in Run(s, before, n).checked && DropOp(fn) !in after
    ensures var first := Run(s, before, n);
            var last := Run(Check(first, fn, appends, w, n).0, after, n);
            var good := Fresh(first.cache, fn, appends, w, n);
            && Check(last, fn, later, w', n) == (last, Some(good))
            && (good ==>
                  && LoadCached(last.cache, fn) == LoadCached(first.cache, fn)
                  && LoadsAll(first.cache, LoadCached(last.cache, fn), fn, n))
  {
    RunInv(s, before, n);
    var first := Run(s, before, n);
    var (t, answer) := Check(first, fn, appends, w, n);
    FirstCheckExactly(first, fn, appends, w, n);
    UncheckedUnclean(first, fn);
    FirstCheckLeaves(first, fn, appends, w, n);
    if answer == Some(true) {
      RunSettled(t, after, n, fn);
      SameLoad(t, Run(t, after, n), fn);
      LoadExactly(first.cache, fn);
    } else {
      RunUnclean(t, after, n, fn);
    }
  }

  // ---- what a first check removes ----

  function AllPieces(lists: seq<string>): seq<string>
    decreases |lists|
  {
    if lists == [] then [] else Pieces(lists[0]) + AllPieces(lists[1..])
  }

  /** The first piece that does not hold decides: it raises without a colon, and is a change with one. */
  ghost predicate FirstBad(pieces: seq<string>, w: World, verdict: Verdict) {
    if verdict == Same then forall p :: p in pieces ==> FlagHolds(p, w)
    else
      exists i: nat :: i < |pieces| && (forall j :: 0 <= j < i ==> FlagHolds(pieces[j], w)) && !FlagHolds(pieces[i], w)
        && (verdict == Raised <==> Parts(pieces[i]).None?)
  }

  lemma BadAt(pieces: seq<string>, w: World, verdict: Verdict, i: nat)
    requires i < |pieces| && (forall j :: 0 <= j < i ==> FlagHolds(pieces[j], w)) && !FlagHolds(pieces[i], w)
    requires verdict != Same && (verdict == Raised <==> Parts(pieces[i]).None?)
    ensures FirstBad(pieces, w, verdict)
  {
  }

  lemma {:induction false} PiecesFirstBad(pieces: seq<string>, w: World)
    ensures FirstBad(pieces, w, PiecesVerdict(pieces, w))
    decreases |pieces|
  {
    var verdict := PiecesVerdict(pieces, w);
    if pieces != [] && PieceVerdict(pieces[0], w) != Same {
      BadAt(pieces, w, verdict, 0);
    } else if pieces != [] {
      PiecesFirstBad(pieces[1..], w);
      assert pieces == [pieces[0]] + pieces[1..] && FlagHolds(pieces[0], w);
      BadLater([pieces[0]], pieces[1..], w, verdict);
    }
  }

  lemma BadLater(front: seq<string>, pieces: seq<string>, w: World, verdict: Verdict)
    requires FirstBad(pieces, w, verdict) && forall p :: p in front ==> FlagHolds(p, w)
    ensures FirstBad(front + pieces, w, verdict)
  {
    if verdict != Same {
      var i: nat :| i < |pieces| && (forall j :: 0 <= j < i ==> FlagHolds(pieces[j], w)) && !FlagHolds(pieces[i], w)
        && (verdict == Raised <==> Parts(pieces[i]).None?);
      BadAt(front + pieces, w, verdict, |front| + i);
    }
  }

  lemma BadEarlier(pieces: seq<string>, more: seq<string>, w: World, verdict: Verdict)
    requires FirstBad(pieces, w, verdict) && verdict != Same
    ensures FirstBad(pieces + more, w, verdict)
  {
    var i: nat :| i < |pieces| && (forall j :: 0 <= j < i ==> FlagHolds(pieces[j], w)) && !FlagHolds(pieces[i], w)
      && (verdict == Raised <==> Parts(pieces[i]).None?);
    BadAt(pieces + more, w, verdict, i);
  }

  lemma {:induction false} ListsFirstBad(lists: seq<string>, w: World)
    ensures FirstBad(AllPieces(lists), w, ListsVerdict(lists, w))
    decreases |lists|
  {
    if lists != [] {
      var first, rest := Pieces(lists[0]), AllPieces(lists[1..]);
      PiecesFirstBad(first, w);
      if PiecesVerdict(first, w) != Same {
        BadEarlier(first, rest, w, PiecesVerdict(first, w));
      } else {
        ListsFirstBad(lists[1..], w);
        BadLater(first, rest, w, ListsVerdict(lists, w));
      }
    }
  }

  /** Times, appends and existence flags are as recorded, whatever is there of the variants. */
  ghost predicate Unchanged(core: Info, fn: string, appends: seq<string>, w: World)
    requires core.Core?
  {
    && w.mtime(fn) != 0 && w.mtime(fn) == core.timestamp && DependsSame(core.depends, w)
    && FlagsHold(Lists(core), w) && appends == core.appends
  }

  /** Times are as recorded, and the first piece that does not hold cannot be split. */
  ghost predicate Malformed(core: Info, fn: string, w: World)
    requires core.Core?
  {
    && w.mtime(fn) != 0 && w.mtime(fn) == core.timestamp && DependsSame(core.depends, w)
    && FirstBad(AllPieces(Lists(core)), w, Raised)
  }

  lemma OneVerdict(pieces: seq<string>, w: World, a: Verdict, b: Verdict)
    requires FirstBad(pieces, w, a) && FirstBad(pieces, w, b)
    ensures a == b
  {
    if a != Same && b != Same {
      var i: nat :| i < |pieces| && (forall j :: 0 <= j < i ==> FlagHolds(pieces[j], w)) && !FlagHolds(pieces[i], w)
        && (a == Raised <==> Parts(pieces[i]).None?);
      var k: nat :| k < |pieces| && (forall j :: 0 <= j < k ==> FlagHolds(pieces[j], w)) && !FlagHolds(pieces[k], w)
        && (b == Raised <==> Parts(pieces[k]).None?);
      assert i == k;
    }
  }

  /**
   The first check of a cached recipe: it raises exactly for a malformed list, removes the recipe from the cache
   exactly when something recorded changed, and never touches another entry of the cache. A recipe that is unchanged
   but lacks a variant stays in the cache, and is not clean; nor is any of its variants.
   */
  lemma FirstCheckRemoves(s: State, fn: string, appends: seq<string>, w: World, n: nat)
    requires HasCore(s.cache, fn) && fn !in s.checked
    ensures var core, (t, answer) := s.cache[fn][0], Check(s, fn, appends, w, n);
            && (answer == None <==> Malformed(core, fn, w))
            && (fn in t.cache <==> Unchanged(core, fn, appends, w) || Malformed(core, fn, w))
            && (forall k :: k != fn ==> SameAt(s.cache, t.cache, k))
            && (fn in t.cache ==> t.cache[fn] == s.cache[fn])
            && (Unchanged(core, fn, appends, w) && answer == Some(false) ==>
                  forall v :: v in core.variants ==> VariantName(fn, v) !in t.clean)
  {
    var core := s.cache[fn][0];
    ListsExactly(Lists(core), w);
    ListsFirstBad(Lists(core), w);
    if FirstBad(AllPieces(Lists(core)), w, Raised) {
      OneVerdict(AllPieces(Lists(core)), w, ListsVerdict(Lists(core), w), Raised);
    }
  }

  /** `cacheValidUpdate` itself answers yes exactly for a fresh recipe, and then the recipe is clean. */
  lemma UpdateAnswers(s: State, fn: string, appends: seq<string>, w: World, n: nat)
    requires Inv(s) && ':' !in fn && fn !in s.checked
    ensures var (t, answer) := Update(s, fn, appends, w, n);
            && (answer == Some(true) <==> Fresh(s.cache, fn, appends, w, n))
            && (answer == Some(true) <==> fn in t.clean)
  {
    UncheckedUnclean(s, fn);
    FirstCheckExactly(s, fn, appends, w, n);
  }

  lemma FirstCheckLeaves(s: State, fn: string, appends: seq<string>, w: World, n: nat)
    requires fn !in s.checked && fn !in s.clean
    ensures var (t, answer) := Check(s, fn, appends, w, n);
            && fn in t.checked
            && (if answer == Some(true) then Settled(t, fn, n) && t.cache == s.cache else fn !in t.clean)
  {
  }

  /** Every variant in order, each under its own name with the infos that the cache has for that name. */
  ghost predicate EachOwn(cache: Cache, loaded: seq<(string, seq<Info>)>, fn: string, variants: seq<string>) {
    && |loaded| == |variants|
    && forall i :: 0 <= i < |variants| ==>
         && loaded[i].0 == VariantName(fn, variants[i])
         && loaded[i].0 in cache && loaded[i].1 == cache[loaded[i].0]
  }

  /** What loading a fresh recipe gives: every variant with its own infos, one of every kind. */
  ghost predicate LoadsAll(cache: Cache, loaded: Option<seq<(string, seq<Info>)>>, fn: string, n: nat) {
    && HasCore(cache, fn) && loaded.Some?
    && EachOwn(cache, loaded.value, fn, cache[fn][0].variants)
    && forall i :: 0 <= i < |loaded.value| ==> |loaded.value[i].1| == n
  }

  /** Loading fails exactly when the recipe or one of its variants is missing, and else gives each its own infos. */
  lemma LoadExactly(cache: Cache, fn: string)
    ensures LoadCached(cache, fn).Some? <==>
            HasCore(cache, fn) && forall v :: v in cache[fn][0].variants ==> VariantName(fn, v) in cache
    ensures LoadCached(cache, fn).Some? ==>
              EachOwn(cache, LoadCached(cache, fn).value, fn, cache[fn][0].variants)
  {
  }

  lemma SameLoad(s: State, t: State, fn: string)
    requires Untouched(s, t, fn)
    ensures LoadCached(s.cache, fn) == LoadCached(t.cache, fn)
  {
    var variants := s.cache[fn][0].variants;
    forall v | v in variants
      ensures VariantName(fn, v) in s.cache <==> VariantName(fn, v) in t.cache
      ensures At(s.cache, VariantName(fn, v)) == At(t.cache, VariantName(fn, v))
    {
      assert SameAt(s.cache, t.cache, VariantName(fn, v));
    }
    var a, b := LoadCached(s.cache, fn), LoadCached(t.cache, fn);
    if a.Some? {
      assert a.value == b.value;
    }
  }

  /** A dropped recipe is neither clean nor loaded. */
  lemma DroppedIsGone(s: State, fn: string, appends: seq<string>, w: World, n: nat)
    requires Inv(s) && ':' !in fn
    ensures var t := Remove(s, fn);
            Check(t, fn, appends, w, n).1 == Some(false) && LoadCached(t.cache, fn) == None
  {
  }

  /** A recipe one of whose variants was saved without some kind of information is not fresh after loading. */
  lemma ShortIsNotFresh(v: Versions, c: Cache, keys: seq<string>, classes: seq<string>,
                        fn: string, variant: string, appends: seq<string>, w: World)
    requires RecipeStore.Lists(keys, c) && HasCore(Load(v, map[], Saved(v, c, keys, classes)).0, fn)
    requires variant in Load(v, map[], Saved(v, c, keys, classes)).0[fn][0].variants
    requires var infos := At(c, VariantName(fn, variant));
             (forall cls :: cls in classes ==> |InfosOf(infos, cls)| <= 1) && Lacks(infos, classes)
    ensures !Fresh(Load(v, map[], Saved(v, c, keys, classes)).0, fn, appends, w, |classes|)
  {
    var name := VariantName(fn, variant);
    SaveLoad(v, c, keys, classes, name);
    ShortExactly(At(c, name), classes);
    var loaded := Load(v, map[], Saved(v, c, keys, classes)).0;
    assert !There(loaded, name, |classes|);
  }

  // ---- the object ----

  class RecipeCache {
    const kinds: nat // the number of kinds of information
    var clean: set<string>
    var checked: set<string>
    var dependsCache: Cache

    constructor (kinds: nat)
      ensures this.kinds == kinds && Now() == State({}, {}, map[]) && Inv(Now())
    {
      this.kinds, clean, checked, dependsCache := kinds, {}, {}, map[];
    }

    function Now(): State
      reads this
    {
      State(clean, checked, dependsCache)
    }

    method CacheValid(fn: string, appends: seq<string>, w: World) returns (answer: Option<bool>)
      modifies this
      ensures (Now(), answer) == Check(old(Now()), fn, appends, w, kinds)
    {
      if fn !in checked {
        var r := CacheValidUpdate(fn, appends, w);
        if r.None? {
          return None;
        }
      }
      return Some(fn in clean);
    }

    method CacheValidUpdate(fn: string, appends: seq<string>, w: World) returns (answer: Option<bool>)
      modifies this
      ensures (Now(), answer) == Update(old(Now()), fn, appends, w, kinds)
    {
      checked := checked + {fn};
      if fn !in dependsCache {
        return Some(false);
      }
      var mtime := w.mtime(fn);
      if mtime == 0 {
        RemoveFn(fn);
        return Some(false);
      }
      if dependsCache[fn] == [] || !dependsCache[fn][0].Core? {
        return None;
      }
      var core := dependsCache[fn][0];
      if mtime != core.timestamp {
        RemoveFn(fn);
        return Some(false);
      }
      var same := DependsUnchanged(core.depends, w);
      if !same {
        RemoveFn(fn);
        return Some(false);
      }
      var verdict := Same;
      if core.checksums.Some? {
        verdict := CompareLists(core.checksums.value, w);
      }
      match verdict
      case Raised =>
        return None;
      case Changed =>
        RemoveFn(fn);
        return Some(false);
      case Same =>
        if appends != core.appends {
          RemoveFn(fn);
          return Some(false);
        }
        var valid := MarkVariants(fn, core.variants);
        answer := Some(valid);
    }

    method DependsUnchanged(depends: seq<(string, int)>, w: World) returns (same: bool)
      ensures same <==> DependsSame(depends, w)
    {
      for i := 0 to |depends|
        invariant forall j :: 0 <= j < i ==> w.mtime(depends[j].0) == depends[j].1
      {
        var (f, before) := depends[i];
        var fmtime := w.mtime(f);
        if before != 0 && fmtime == 0 {
          return false;
        }
        if fmtime != before {
          return false;
        }
      }
      return true;
    }

    method CompareLists(lists: seq<string>, w: World) returns (verdict: Verdict)
      ensures verdict == ListsVerdict(lists, w)
    {
      for i := 0 to |lists|
        invariant ListsVerdict(lists, w) == ListsVerdict(lists[i..], w)
      {
        verdict := ComparePieces(Pieces(lists[i]), w);
        if verdict != Same {
          return;
        }
      }
      return Same;
    }

    method ComparePieces(pieces: seq<string>, w: World) returns (verdict: Verdict)
      ensures verdict == PiecesVerdict(pieces, w)
    {
      for i := 0 to |pieces|
        invariant PiecesVerdict(pieces, w) == PiecesVerdict(pieces[i..], w)
      {
        if pieces[i] == "" {
          continue;
        }
        var parts := Parts(pieces[i]);
        if parts.None? {
          return Raised;
        }
        var (f, exist) := parts.value;
        if (exist == "True" && !w.present(f)) || (exist == "False" && w.present(f)) {
          return Changed;
        }
      }
      return Same;
    }

    /** Marks the variants clean, and takes the marks back when one of them is not there in full. */
    method MarkVariants(fn: string, variants: seq<string>) returns (valid: bool)
      modifies this`clean
      ensures valid <==> AllThere(dependsCache, fn, variants, kinds)
      ensures clean == if valid then old(clean) + Names(fn, variants) + {fn}
                else old(clean) - Names(fn, variants) - {fn}
    {
      var invalid := false;
      for i := 0 to |variants|
        invariant clean == old(clean) + Names(fn, variants[..i])
        invariant invalid <==> !AllThere(dependsCache, fn, variants[..i], kinds)
      {
        NamesMore(fn, variants, i);
        var virtualfn := VariantName(fn, variants[i]);
        clean := clean + {virtualfn};
        if virtualfn !in dependsCache {
          invalid := true;
        } else if |dependsCache[virtualfn]| != kinds {
          invalid := true;
        }
        assert AllThere(dependsCache, fn, variants[..i + 1], kinds)
          <==> AllThere(dependsCache, fn, variants[..i], kinds) && There(dependsCache, virtualfn, kinds);
      }
      assert variants[..|variants|] == variants;
      if invalid {
        for i := 0 to |variants|
          invariant clean == old(clean) + Names(fn, variants) - Names(fn, variants[..i])
        {
          NamesMore(fn, variants, i);
          var virtualfn := VariantName(fn, variants[i]);
          if virtualfn in clean {
            clean := clean - {virtualfn};
          }
        }
        if fn in clean {
          clean := clean - {fn};
        }
        return false;
      }
      clean := clean + {fn};
      return true;
    }

    method RemoveFn(fn: string)
      modifies this
      ensures Now() == Remove(old(Now()), fn)
    {
      if fn in dependsCache {
        dependsCache := dependsCache - {fn};
      }
      if fn in clean {
        clean := clean - {fn};
      }
    }

    method LoadInfos(fn: string) returns (infos: Option<seq<(string, seq<Info>)>>)
      ensures infos == LoadCached(dependsCache, fn)
      ensures infos.Some?
         <==> (HasCore(dependsCache, fn) &&
               forall v :: v in dependsCache[fn][0].variants ==> VariantName(fn, v) in dependsCache)
      ensures infos.Some? ==> EachOwn(dependsCache, infos.value, fn, dependsCache[fn][0].variants)
    {
      if fn !in dependsCache || dependsCache[fn] == [] || !dependsCache[fn][0].Core? {
        return None;
      }
      var variants := dependsCache[fn][0].variants;
      var found := [];
      for i := 0 to |variants|
        invariant |found| == i
        invariant forall j :: 0 <= j < i ==> VariantName(fn, variants[j]) in dependsCache
        invariant forall j :: 0 <= j < i ==>
                    found[j] == (VariantName(fn, variants[j]), At(dependsCache, VariantName(fn, variants[j])))
      {
        var virtualfn := VariantName(fn, variants[i]);
        if virtualfn !in dependsCache {
          return None;
        }
        found := found + [(virtualfn, dependsCache[virtualfn])];
      }
      assert forall v :: v in variants ==> VariantName(fn, v) in dependsCache;
      assert found == LoadCached(dependsCache, fn).value;
      return Some(found);
    }
  }

  lemma NamesMore(fn: string, variants: seq<string>, i: nat)
    requires i < |variants|
    ensures Names(fn, variants[..i + 1]) == Names(fn, variants[..i]) + {VariantName(fn, variants[i])}
    ensures variants[..i + 1] == variants[..i] + [variants[i]]
  {
    assert variants[..i + 1] == variants[..i] + [variants[i]];
  }
}
