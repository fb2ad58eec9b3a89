/** Pruning a shared state cache: files of one signature but the newest, and files left without an archive. */
module SstatePruning {
  import opened Sequences

  /** A file of the cache; the fields come from its name and, the time, from its stat result. */
  datatype Entry = Entry(path: string, pn: string, arch: string, task: string, ext: string, unihash: string, mtime: int)

  const ARCHIVE := ".tar.zst"
  const LICENSES := "populate_lic"

  /** What the pattern for file names allows. */
  predicate Named(p: Entry) {
    ':' !in p.pn && ':' !in p.arch && ':' !in p.task && ':' !in p.ext
  }

  function Sig(p: Entry): string {
    Join([p.pn, p.arch, p.task, p.ext], ':')
  }

  function Group(p: Entry): string {
    Join([p.pn, p.arch, p.task], ':')
  }

  predicate SameSig(p: Entry, q: Entry) {
    SameGroup(p, q) && p.ext == q.ext
  }

  predicate SameGroup(p: Entry, q: Entry) {
    p.pn == q.pn && p.arch == q.arch && p.task == q.task
  }

  lemma SigExactly(p: Entry, q: Entry)
    requires Named(p) && Named(q)
    ensures Sig(p) == Sig(q) <==> SameSig(p, q)
  {
    var a, b := [p.pn, p.arch, p.task, p.ext], [q.pn, q.arch, q.task, q.ext];
    JoinSplit(a, ':');
    JoinSplit(b, ':');
    if Sig(p) == Sig(q) {
      assert a == b;
      assert a[0] == b[0] && a[1] == b[1] && a[2] == b[2] && a[3] == b[3];
    }
  }

  lemma GroupExactly(p: Entry, q: Entry)
    requires Named(p) && Named(q)
    ensures Group(p) == Group(q) <==> SameGroup(p, q)
  {
    var a, b := [p.pn, p.arch, p.task], [q.pn, q.arch, q.task];
    JoinSplit(a, ':');
    JoinSplit(b, ':');
    if Group(p) == Group(q) {
      assert a == b;
      assert a[0] == b[0] && a[1] == b[1] && a[2] == b[2];
    }
  }

  // ---- duplicates ----

  datatype Scan = Scan(keep: map<string, Entry>, remove: seq<Entry>)

  /** One file of the loop. */
  function Look(s: Scan, p: Entry): Scan {
    if p.task == LICENSES then s
    else if Sig(p) !in s.keep then s.(keep := s.keep[Sig(p) := p])
    else if p.mtime > s.keep[Sig(p)].mtime then Scan(s.keep[Sig(p) := p], s.remove + [s.keep[Sig(p)]])
    else s.(remove := s.remove + [p])
  }

  function ScanAll(paths: seq<Entry>): Scan {
    if |paths| == 0 then Scan(map[], []) else Look(ScanAll(paths[..|paths| - 1]), paths[|paths| - 1])
  }

  ghost predicate Distinct(paths: seq<Entry>) {
    forall i, j :: 0 <= i < j < |paths| ==> paths[i] != paths[j]
  }

  /** p is the file kept for its signature. */
  predicate Kept(s: Scan, p: Entry) {
    Sig(p) in s.keep && s.keep[Sig(p)] == p
  }

  /** Every file looked at is kept, removed or exempt; each signature keeps one file, and it is a newest one. */
  ghost predicate ScanInv(s: Scan, paths: seq<Entry>) {
    && (forall k :: k in s.keep ==> Sig(s.keep[k]) == k && s.keep[k] in paths && s.keep[k].task != LICENSES)
    && (forall p :: p in paths && p.task != LICENSES ==> Sig(p) in s.keep && p.mtime <= s.keep[Sig(p)].mtime)
    && (forall p :: p in s.remove <==> p in paths && p.task != LICENSES && !Kept(s, p))
  }

  lemma LookRemoves(s: Scan, paths: seq<Entry>, p: Entry, q: Entry)
    requires ScanInv(s, paths) && p !in paths
    ensures q in Look(s, p).remove <==> (q in paths || q == p) && q.task != LICENSES && !Kept(Look(s, p), q)
  {
    assert q in s.remove <==> q in paths && q.task != LICENSES && !Kept(s, q);
    if p.task != LICENSES && Sig(p) in s.keep {
      assert Kept(s, s.keep[Sig(p)]);
    }
  }

  lemma LookKept(s: Scan, paths: seq<Entry>, p: Entry)
    requires ScanInv(s, paths)
    ensures var t := Look(s, p);
            && (forall k :: k in t.keep ==> Sig(t.keep[k]) == k && (t.keep[k] in paths || t.keep[k] == p)
                                            && t.keep[k].task != LICENSES)
            && (forall q :: (q in paths || q == p) && q.task != LICENSES ==>
                Sig(q) in t.keep && q.mtime <= t.keep[Sig(q)].mtime)
  {
  }

  lemma LookKeeps(s: Scan, paths: seq<Entry>, p: Entry)
    requires ScanInv(s, paths) && p !in paths
    ensures ScanInv(Look(s, p), paths + [p])
  {
    assert forall q :: q in paths + [p] <==> q in paths || q == p;
    LookKept(s, paths, p);
    forall q {
      LookRemoves(s, paths, p, q);
    }
  }

  lemma {:induction false} ScanIsRight(paths: seq<Entry>)
    requires Distinct(paths)
    ensures ScanInv(ScanAll(paths), paths)
    decreases |paths|
  {
    if |paths| > 0 {
      var front, last := paths[..|paths| - 1], paths[|paths| - 1];
      assert paths == front + [last];
      ScanIsRight(front);
      LookKeeps(ScanAll(front), front, last);
    }
  }

  /** The file kept is newer than those of its signature listed before it, and not older than those after it. */
  lemma {:induction false} FirstNewestKept(paths: seq<Entry>, i: nat, k: nat)
    requires Distinct(paths) && i < |paths| && k < |paths| && Kept(ScanAll(paths), paths[i])
    requires Sig(paths[k]) == Sig(paths[i]) && paths[k].task != LICENSES
    ensures k < i ==> paths[k].mtime < paths[i].mtime
    ensures k > i ==> paths[k].mtime <= paths[i].mtime
    decreases |paths|
  {
    var front, last := paths[..|paths| - 1], paths[|paths| - 1];
    assert paths == front + [last];
    if i < |front| {
      assert paths[i] != last;
      KeptBefore(ScanAll(front), last, paths[i]);
      if k < |front| {
        FirstNewestKept(front, i, k);
      } else {
        ScanIsRight(paths);
      }
    } else if k < |front| {
      ScanIsRight(front);
      LastKept(ScanAll(front), front, last, front[k]);
    }
  }

  lemma KeptBefore(s: Scan, last: Entry, p: Entry)
    requires Kept(Look(s, last), p) && p != last
    ensures Kept(s, p)
  {
  }

  lemma LastKept(s: Scan, front: seq<Entry>, last: Entry, q: Entry)
    requires ScanInv(s, front) && last !in front && Kept(Look(s, last), last)
    requires q in front && Sig(q) == Sig(last) && q.task != LICENSES
    ensures q.mtime < last.mtime
  {
  }

  // ---- orphans ----

  predicate HasArchive(files: seq<Entry>) {
    exists p :: p in files && p.ext == ARCHIVE
  }

  predicate Orphan(paths: seq<Entry>, p: Entry) {
    p in paths && forall q :: q in paths && Group(q) == Group(p) ==> q.ext != ARCHIVE
  }

  // ---- the whole run ----

  /** Which files go first: duplicates, files no build uses any more, or none. */
  datatype Mode = Duplicated | Stamps(sums: set<string>) | Neither

  function RemovedFirst(mode: Mode, paths: seq<Entry>): set<Entry> {
    match mode
    case Duplicated => set p | p in ScanAll(paths).remove
    case Stamps(sums) => set p | p in paths && p.unihash !in sums
    case Neither => {}
  }

  /** What `main` removes; the orphans are those of the files found at the start. */
  function Removed(mode: Mode, orphans: bool, paths: seq<Entry>): set<Entry> {
    RemovedFirst(mode, paths) + if orphans then set p | p in paths && Orphan(paths, p) else {}
  }

  /** A listing of the files that are left, in any order. */
  ghost predicate Left(mode: Mode, orphans: bool, paths: seq<Entry>, rest: seq<Entry>) {
    Distinct(rest) && forall p :: p in rest <==> p in paths && p !in Removed(mode, orphans, paths)
  }

  ghost predicate Listing(paths: seq<Entry>) {
    Distinct(paths) && forall p :: p in paths ==> Named(p)
  }

  /** q is as new as any other file of its signature. */
  ghost predicate Newest(paths: seq<Entry>, q: Entry) {
    forall p :: p in paths && SameSig(p, q) ==> p.mtime <= q.mtime
  }

  /** Of every signature that keeps files exactly one is left, and it is a newest one. */
  lemma OneNewestLeft(orphans: bool, paths: seq<Entry>, rest: seq<Entry>)
    requires Listing(paths) && Left(Duplicated, orphans, paths, rest)
    ensures forall p, q :: p in rest && q in rest && SameSig(p, q) && p.task != LICENSES ==> p == q
    ensures forall q :: q in rest && q.task != LICENSES ==> Newest(paths, q)
  {
    ScanIsRight(paths);
    var s := ScanAll(paths);
    forall p, q | p in rest && q in rest && SameSig(p, q) && p.task != LICENSES
      ensures p == q
    {
      SigExactly(p, q);
      assert Kept(s, p) && Kept(s, q);
    }
    forall q | q in rest && q.task != LICENSES
      ensures Newest(paths, q)
    {
      forall p | p in paths && SameSig(p, q)
        ensures p.mtime <= q.mtime
      {
        SigExactly(p, q);
        assert Kept(s, q);
      }
    }
  }

  /** A signature loses all its files only with an orphaned group; license files go only that way. */
  lemma NoneLost(orphans: bool, paths: seq<Entry>, rest: seq<Entry>, p: Entry)
    requires Listing(paths) && Left(Duplicated, orphans, paths, rest) && p in paths && !(orphans && Orphan(paths, p))
    ensures exists q :: q in rest && SameSig(p, q)
    ensures p.task == LICENSES ==> p in rest
  {
    ScanIsRight(paths);
    var s := ScanAll(paths);
    if p.task == LICENSES {
      assert p !in s.remove;
      assert p in rest && SameSig(p, p);
    } else {
      var q := s.keep[Sig(p)];
      SigExactly(p, q);
      GroupExactly(p, q);
      assert Kept(s, q) && q !in s.remove;
      if Orphan(paths, q) {
        OrphanGroup(paths, q, p);
      }
      assert q in rest && SameSig(p, q);
    }
  }

  lemma OrphanGroup(paths: seq<Entry>, p: Entry, q: Entry)
    requires Orphan(paths, p) && q in paths && Group(q) == Group(p)
    ensures Orphan(paths, q)
  {
  }

  /** Every group that keeps files keeps an archive, although orphans are looked for before duplicates are gone. */
  lemma ArchivesLeft(paths: seq<Entry>, rest: seq<Entry>, p: Entry)
    requires Listing(paths) && Left(Duplicated, true, paths, rest) && p in rest
    ensures exists q :: q in rest && SameGroup(p, q) && q.ext == ARCHIVE
  {
    assert !Orphan(paths, p);
    var a :| a in paths && Group(a) == Group(p) && a.ext == ARCHIVE;
    GroupExactly(a, p);
    if Orphan(paths, a) {
      OrphanGroup(paths, a, p);
    }
    NoneLost(true, paths, rest, a);
    var q :| q in rest && SameSig(a, q);
    assert q in rest && SameGroup(p, q) && q.ext == ARCHIVE;
  }

  /** A second run on what is left, listed in any order, removes nothing. */
  lemma SecondRunRemovesNothing(orphans: bool, paths: seq<Entry>, rest: seq<Entry>)
    requires Listing(paths) && Left(Duplicated, orphans, paths, rest)
    ensures Removed(Duplicated, orphans, rest) == {}
  {
    ScanIsRight(rest);
    OneNewestLeft(orphans, paths, rest);
    var s := ScanAll(rest);
    forall p | p in rest
      ensures p !in s.remove
      ensures orphans ==> !Orphan(rest, p)
    {
      if p.task != LICENSES {
        SigExactly(p, s.keep[Sig(p)]);
        assert p == s.keep[Sig(p)];
        assert Kept(s, p);
      }
      if orphans {
        ArchivesLeft(paths, rest, p);
        var q :| q in rest && SameGroup(p, q) && q.ext == ARCHIVE;
        GroupExactly(q, p);
      }
    }
  }

  // ---- files no build uses ----

  /** With stamps a group may be left without its archive: the archive is unused, and its group was no orphan. */
  lemma StampsLeaveOrphans()
    ensures var a := Entry("a", "pn", "arch", "task", ARCHIVE, "old", 0);
            var b := Entry("b", "pn", "arch", "task", ".tar.zst.siginfo", "new", 0);
            Listing([a, b]) && Left(Stamps({"new"}), true, [a, b], [b]) && Orphan([b], b)
  {
    var a := Entry("a", "pn", "arch", "task", ARCHIVE, "old", 0);
    var b := Entry("b", "pn", "arch", "task", ".tar.zst.siginfo", "new", 0);
    assert "old"[0] != "new"[0];
    AloneLeft(a, b, {"new"});
  }

  lemma AloneLeft(a: Entry, b: Entry, sums: set<string>)
    requires SameGroup(a, b) && a.ext == ARCHIVE && b.ext != ARCHIVE && a.unihash !in sums && b.unihash in sums
    ensures Left(Stamps(sums), true, [a, b], [b]) && Orphan([b], b)
  {
    assert a in [a, b] && Group(a) == Group(b);
  }

  ghost predicate StampsLeft(sums: set<string>, paths: seq<Entry>, rest: seq<Entry>) {
    forall p :: p in rest <==> p in paths && p.unihash in sums && !Orphan(paths, p)
  }

  lemma StampsLeftAre(sums: set<string>, paths: seq<Entry>, rest: seq<Entry>)
    requires Left(Stamps(sums), true, paths, rest)
    ensures StampsLeft(sums, paths, rest)
  {
    forall p
      ensures p in rest <==> p in paths && p.unihash in sums && !Orphan(paths, p)
    {
      assert p in rest <==> p in paths && p !in Removed(Stamps(sums), true, paths);
    }
  }

  lemma UsedIsLeft(sums: set<string>, paths: seq<Entry>, rest: seq<Entry>, p: Entry)
    requires StampsLeft(sums, paths, rest) && p in rest
    ensures Orphan(rest, p) <==> !UsedArchive(sums, paths, p)
  {
    if UsedArchive(sums, paths, p) {
      var q :| q in paths && Group(q) == Group(p) && q.ext == ARCHIVE && q.unihash in sums;
      assert !Orphan(paths, q);
      assert q in rest;
    }
    if !Orphan(rest, p) {
      var q :| q in rest && Group(q) == Group(p) && q.ext == ARCHIVE;
      assert q in paths && q.unihash in sums;
    }
  }

  /**
   No file is left in a group without an archive exactly when each group of a used file, orphans aside, has a
   used archive.
   */
  lemma StampsExactly(sums: set<string>, paths: seq<Entry>, rest: seq<Entry>)
    requires Listing(paths) && Left(Stamps(sums), true, paths, rest)
    ensures (forall p :: p in rest ==> !Orphan(rest, p))
       <==> (forall p :: p in paths && p.unihash in sums && !Orphan(paths, p) ==> UsedArchive(sums, paths, p))
  {
    StampsLeftAre(sums, paths, rest);
    forall p | p in rest
      ensures Orphan(rest, p) <==> !UsedArchive(sums, paths, p)
    {
      UsedIsLeft(sums, paths, rest, p);
    }
  }

  ghost predicate UsedArchive(sums: set<string>, paths: seq<Entry>, p: Entry) {
    exists q :: q in paths && Group(q) == Group(p) && q.ext == ARCHIVE && q.unihash in sums
  }

  /** A second run clears up: after it no orphan is left, and a third removes nothing. */
  lemma StampsTwice(sums: set<string>, paths: seq<Entry>, rest: seq<Entry>, rest': seq<Entry>)
    requires Left(Stamps(sums), true, paths, rest) && Left(Stamps(sums), true, rest, rest')
    ensures forall p :: p in rest' ==> !Orphan(rest', p)
    ensures Removed(Stamps(sums), true, rest') == {}
  {
    forall p | p in rest'
      ensures !Orphan(rest', p)
    {
      assert !Orphan(rest, p);
      var q :| q in rest && Group(q) == Group(p) && q.ext == ARCHIVE;
      assert q in rest';
    }
  }

  // ---- the loops ----

  method RemoveDuplicated(paths: seq<Entry>) returns (remove: seq<Entry>)
    ensures remove == ScanAll(paths).remove
  {
    var keep: map<string, Entry> := map[];
    remove := [];
    for i := 0 to |paths|
      invariant Scan(keep, remove) == ScanAll(paths[..i])
    {
      var p := paths[i];
      assert paths[..i + 1][..i] == paths[..i] && paths[..i + 1][i] == p;
      if p.task != LICENSES {
        var sig := Sig(p);
        if sig !in keep {
          keep := keep[sig := p];
        } else if p.mtime > keep[sig].mtime {
          remove := remove + [keep[sig]];
          keep := keep[sig := p];
        } else {
          remove := remove + [p];
        }
      }
    }
    assert paths[..|paths|] == paths;
  }

  /** The files by group. */
  ghost predicate Grouped(sigs: map<string, seq<Entry>>, paths: seq<Entry>) {
    && (forall k, p :: k in sigs && p in sigs[k] ==> p in paths && Group(p) == k)
    && (forall p :: p in paths ==> Group(p) in sigs && p in sigs[Group(p)])
  }

  method GroupPaths(paths: seq<Entry>) returns (sigs: map<string, seq<Entry>>)
    ensures Grouped(sigs, paths)
  {
    sigs := map[];
    for i := 0 to |paths|
      invariant Grouped(sigs, paths[..i])
    {
      var p := paths[i];
      ghost var before := sigs;
      assert paths[..i + 1] == paths[..i] + [p];
      sigs := sigs[Group(p) := (if Group(p) in sigs then sigs[Group(p)] else []) + [p]];
      GroupedMore(before, paths[..i], p);
    }
    assert paths[..|paths|] == paths;
  }

  lemma GroupedMore(sigs: map<string, seq<Entry>>, paths: seq<Entry>, p: Entry)
    requires Grouped(sigs, paths)
    ensures Grouped(sigs[Group(p) := (if Group(p) in sigs then sigs[Group(p)] else []) + [p]], paths + [p])
  {
  }

  method RemoveOrphans(paths: seq<Entry>) returns (remove: set<Entry>)
    ensures remove == set p | p in paths && Orphan(paths, p)
  {
    var sigs := GroupPaths(paths);
    remove := {};
    var todo := sigs.Keys;
    while todo != {}
      invariant todo <= sigs.Keys
      invariant forall p :: p in remove <==> p in paths && Group(p) !in todo && Orphan(paths, p)
      decreases |todo|
    {
      ghost var some := SomeElement(todo);
      var k :| k in todo;
      todo := todo - {k};
      var archive := AnyArchive(sigs[k]);
      GroupOrphans(sigs, paths, k);
      if !archive {
        remove := remove + set p | p in sigs[k];
      }
    }
  }

  lemma GroupOrphans(sigs: map<string, seq<Entry>>, paths: seq<Entry>, k: string)
    requires Grouped(sigs, paths) && k in sigs
    ensures forall p :: p in paths && Group(p) == k ==> (Orphan(paths, p) <==> !HasArchive(sigs[k]))
    ensures forall p :: p in sigs[k] <==> p in paths && Group(p) == k
  {
  }

  method AnyArchive(files: seq<Entry>) returns (found: bool)
    ensures found == HasArchive(files)
  {
    for i := 0 to |files|
      invariant forall j :: 0 <= j < i ==> files[j].ext != ARCHIVE
    {
      if files[i].ext == ARCHIVE {
        return true;
      }
    }
    return false;
  }

  method RemoveByStamps(sums: set<string>, paths: seq<Entry>) returns (remove: seq<Entry>)
    ensures forall p :: p in remove <==> p in paths && p.unihash !in sums
  {
    remove := [];
    for i := 0 to |paths|
      invariant forall p :: p in remove <==> p in paths[..i] && p.unihash !in sums
    {
      if paths[i].unihash !in sums {
        remove := remove + [paths[i]];
      }
    }
  }

  method Prune(mode: Mode, orphans: bool, paths: seq<Entry>) returns (remove: set<Entry>)
    ensures remove == Removed(mode, orphans, paths)
  {
    var first := [];
    match mode {
      case Duplicated => first := RemoveDuplicated(paths);
      case Stamps(sums) => first := RemoveByStamps(sums, paths);
      case Neither =>
    }
    remove := set p | p in first;
    if orphans {
      var more := RemoveOrphans(paths);
      remove := remove + more;
    }
  }
}
