/**
 The cache shared by many processes: each saves what it found in an extras file of its own number, and one
 process merges the extras files into the cache. Locks are taken and released atomically.
 */
module MergeData {
  import opened Sequences

  /** `cachedata`: one dictionary per kind of entry. */
  type Data<V> = seq<map<string, V>>

  /** Base class and the code parser keep what is there; the revision and checksum caches overwrite. */
  datatype Policy = KeepFirst | Overwrite

  function MergeMap<V>(p: Policy, dest: map<string, V>, source: map<string, V>): map<string, V> {
    if p.KeepFirst? then source + dest else dest + source
  }

  /** `merge_data`: for every index of dest. */
  function Merge<V>(p: Policy, dest: Data<V>, source: Data<V>): (r: Data<V>)
    requires |source| == |dest|
    ensures |r| == |dest|
  {
    seq(|dest|, j requires 0 <= j < |dest| => MergeMap(p, dest[j], source[j]))
  }

  predicate Holds<V>(d: Data<V>, j: nat, k: string) {
    j < |d| && k in d[j]
  }

  predicate AnyData<V>(d: Data<V>) {
    exists j :: 0 <= j < |d| && d[j] != map[]
  }

  /** Merging loses no key, and in the base class changes no value. */
  lemma MergeKeeps<V>(p: Policy, dest: Data<V>, source: Data<V>, j: nat, k: string)
    requires |source| == |dest|
    ensures var r := Merge(p, dest, source);
            && (Holds(r, j, k) <==> Holds(dest, j, k) || Holds(source, j, k))
            && (Holds(r, j, k) ==> r[j][k] == if Holds(dest, j, k) && (p.KeepFirst? || !Holds(source, j, k))
                then dest[j][k] else source[j][k])
  {
  }

  /** The object: what is in memory, and how it is merged. */
  class MultiProcessCache<V(==)> {
    var cachedata: Data<V>
    const policy: Policy

    constructor (policy: Policy, data: Data<V>)
      ensures this.policy == policy && cachedata == data
    {
      this.policy, cachedata := policy, data;
    }

    /** `merge_data` of the class, key by key. */
    method MergeDict(source: map<string, V>, dest: map<string, V>) returns (r: map<string, V>)
      ensures r == MergeMap(policy, dest, source)
    {
      r := dest;
      var todo := source.Keys;
      while todo != {}
        invariant todo <= source.Keys
        invariant r.Keys == dest.Keys + (source.Keys - todo)
        invariant forall k :: k in r ==>
                    r[k] == if k in dest && (policy.KeepFirst? || k !in source || k in todo) then dest[k] else source[k]
        decreases todo
      {
        ghost var some := SomeElement(todo);
        var h :| h in todo;
        if policy.Overwrite? || h !in r {
          r := r[h := source[h]];
        }
        todo := todo - {h};
      }
    }

    method MergeInto(source: Data<V>)
      requires |source| == |cachedata|
      modifies this
      ensures cachedata == Merge(policy, old(cachedata), source)
    {
      for j := 0 to |cachedata|
        invariant |cachedata| == |source| == |old(cachedata)|
        invariant forall i :: 0 <= i < |cachedata| ==>
                    cachedata[i] == if i < j then MergeMap(policy, old(cachedata)[i], source[i]) else old(cachedata)[i]
      {
        var merged := MergeDict(source[j], cachedata[j]);
        cachedata := cachedata[j := merged];
      }
    }

    /** The loop of `save_merge` over the listed extras files; None is a file that cannot be read. */
    method SaveMerge(listed: seq<Option<(Data<V>, nat)>>, version: nat) returns (haveData: bool)
      requires forall i :: 0 <= i < |listed| && Current(listed[i], version) ==> |listed[i].value.0| == |cachedata|
      modifies this
      ensures |cachedata| == |old(cachedata)| && cachedata == MergeListed(policy, old(cachedata), listed, version)
      ensures haveData <==> exists f :: f in listed && f.Some? && f.value.1 == version
    {
      haveData := false;
      for i := 0 to |listed|
        invariant |cachedata| == |old(cachedata)|
        invariant cachedata == MergeListed(policy, old(cachedata), listed[..i], version)
        invariant haveData <==> exists k :: 0 <= k < i && Current(listed[k], version)
      {
        assert listed[..i + 1][..i] == listed[..i];
        if listed[i].None? || listed[i].value.1 != version {
          continue;
        }
        haveData := true;
        MergeInto(listed[i].value.0);
      }
      assert listed[..|listed|] == listed;
      assert forall i :: 0 <= i < |listed| ==> listed[i] in listed;
    }
  }

  predicate Current<V>(f: Option<(Data<V>, nat)>, version: nat) {
    f.Some? && f.value.1 == version
  }

  function MergeListed<V>(p: Policy, data: Data<V>, listed: seq<Option<(Data<V>, nat)>>, version: nat): (r: Data<V>)
    requires forall i :: 0 <= i < |listed| && Current(listed[i], version) ==> |listed[i].value.0| == |data|
    ensures |r| == |data|
  {
    if listed == [] then data
    else
      var front, last := MergeListed(p, data, listed[..|listed| - 1], version), listed[|listed| - 1];
      if Current(last, version) then Merge(p, front, last.value.0) else front
  }

  predicate HasEntry<V>(f: Option<(Data<V>, nat)>, version: nat, j: nat, k: string) {
    f.Some? && f.value.1 == version && Holds(f.value.0, j, k)
  }

  /**
   Which value is left of a key after merging: the base class keeps the one that was there, or else that of the first
   file listed; the classes that overwrite have that of the last.
   */
  lemma {:induction false} ListedValue<V(!new)>(p: Policy, data: Data<V>, listed: seq<Option<(Data<V>, nat)>>,
                                                version: nat, j: nat, k: string, i: nat)
    requires forall i :: 0 <= i < |listed| && Current(listed[i], version) ==> |listed[i].value.0| == |data|
    requires i < |listed| && HasEntry(listed[i], version, j, k)
    requires forall n :: 0 <= n < |listed| && (if p.KeepFirst? then n < i else n > i) ==>
               !HasEntry(listed[n], version, j, k)
    ensures var r := MergeListed(p, data, listed, version);
            && Holds(r, j, k)
            && r[j][k] == if p.KeepFirst? && Holds(data, j, k) then data[j][k] else listed[i].value.0[j][k]
    decreases |listed|
  {
    var front, last := listed[..|listed| - 1], listed[|listed| - 1];
    var before := MergeListed(p, data, front, version);
    if Current(last, version) {
      MergeKeeps(p, before, last.value.0, j, k);
    }
    if i < |front| {
      ListedValue(p, data, front, version, j, k, i);
    } else if p.KeepFirst? {
      NoneListed(p, data, front, version, j, k);
    }
  }

  lemma {:induction false} NoneListed<V(!new)>(p: Policy, data: Data<V>, listed: seq<Option<(Data<V>, nat)>>,
                                               version: nat, j: nat, k: string)
    requires forall i :: 0 <= i < |listed| && Current(listed[i], version) ==> |listed[i].value.0| == |data|
    requires forall n :: 0 <= n < |listed| ==> !HasEntry(listed[n], version, j, k)
    ensures var r := MergeListed(p, data, listed, version);
            (Holds(r, j, k) <==> Holds(data, j, k)) && (Holds(r, j, k) ==> r[j][k] == data[j][k])
    decreases |listed|
  {
    if listed != [] {
      var front, last := listed[..|listed| - 1], listed[|listed| - 1];
      NoneListed(p, data, front, version, j, k);
      if Current(last, version) {
        assert !HasEntry(listed[|listed| - 1], version, j, k);
        MergeKeeps(p, MergeListed(p, data, front, version), last.value.0, j, k);
      }
    }
  }

  /** The smallest number from pid on that is neither locked nor in use. */
  method FindNumber(pid: nat, locked: set<nat>, files: set<nat>) returns (i: nat)
    ensures i >= pid && i !in locked && i !in files
    ensures forall j :: pid <= j < i ==> j in locked || j in files
  {
    i := pid;
    ghost var above := locked + files;
    while i in locked || i in files
      invariant i >= pid && above <= locked + files
      invariant forall j :: j >= i && (j in locked || j in files) ==> j in above
      invariant forall j :: pid <= j < i ==> j in locked || j in files
      decreases above
    {
      above := above - {i};
      i := i + 1;
    }
  }
}

module MergeProtocol {
  import opened Sequences
  import opened MergeData

  type Pid = nat

  /** An extras file while it is being written, and after. */
  datatype File<V> = Partial | Written(data: Data<V>, version: nat)

  /** Where a process is in `save_extras`; i is the number it tries or holds. */
  datatype Pc =
    | Idle
    | Searching(i: nat)
    | Locked(i: nat)
    | Creating(i: nat)
    | Opened(i: nat)
    | Saved(i: nat)
    | Unlocked

  /** Where the merging process is in `save_merge`. */
  datatype Merger = Resting | Merging(todo: set<nat>, haveData: bool)

  datatype State<V> = State(
    files: map<nat, File<V>>,        // extras files by number
    locks: map<nat, Pid>,            // holders of the per-number locks
    pcs: map<Pid, Pc>,
    extras: map<Pid, Data<V>>,       // what each process is saving
    merger: Merger,
    data: Data<V>,                   // the merger's cachedata
    disk: Data<V>,                   // the merged cache file
    log: seq<Data<V>>)               // everything saved so far

  datatype Action<V> =
    | Start(pid: Pid, extras: Data<V>)
    | TryLock(pid: Pid)
    | Check(pid: Pid)
    | Open(pid: Pid)
    | Dump(pid: Pid)
    | Unlock(pid: Pid)
    | Release(pid: Pid)
    | MergeStart
    | MergeOne(f: nat)
    | MergeStore

  const VERSION: nat := 1

  function PcOf<V>(s: State<V>, p: Pid): Pc {
    if p in s.pcs then s.pcs[p] else Idle
  }

  predicate HoldsNumber(pc: Pc) {
    pc.Locked? || pc.Creating? || pc.Opened? || pc.Saved?
  }

  /** When an action can happen: a lock call that would block does not. */
  predicate Enabled<V>(s: State<V>, a: Action<V>) {
    match a
    case Start(p, extras) => PcOf(s, p) == Idle && s.merger.Resting? && |extras| == |s.data|
    case TryLock(p) => PcOf(s, p).Searching?
    case Check(p) => PcOf(s, p).Locked?
    case Open(p) => PcOf(s, p).Creating?
    case Dump(p) => PcOf(s, p).Opened? && p in s.extras
    case Unlock(p) => PcOf(s, p).Saved?
    case Release(p) => PcOf(s, p).Unlocked?
    case MergeStart => s.merger.Resting? && forall p :: p in s.pcs ==> s.pcs[p] == Idle
    case MergeOne(f) => s.merger.Merging? && f in s.merger.todo
    case MergeStore => s.merger.Merging? && s.merger.todo == {}
  }

  function Goto<V>(s: State<V>, p: Pid, pc: Pc): State<V> {
    s.(pcs := s.pcs[p := pc])
  }

  /** One extras file: what cannot be read or has another version is dropped. */
  function MergeFile<V>(policy: Policy, s: State<V>, f: nat): State<V>
    requires s.merger.Merging?
  {
    var s1 := s.(files := s.files - {f}, merger := s.merger.(todo := s.merger.todo - {f}));
    if f in s.files && s.files[f].Written? && s.files[f].version == VERSION && |s.files[f].data| == |s.data| then
      s1.(data := Merge(policy, s.data, s.files[f].data), merger := s1.merger.(haveData := true))
    else s1
  }

  function Next<V>(policy: Policy, s: State<V>, a: Action<V>): State<V>
    requires Enabled(s, a)
  {
    match a
    case Start(p, extras) => if AnyData(extras) then Goto(s.(extras := s.extras[p := extras]), p, Searching(p)) else s
    case TryLock(p) =>
      var i := PcOf(s, p).i;
      if i in s.locks then Goto(s, p, Searching(i + 1)) else Goto(s.(locks := s.locks[i := p]), p, Locked(i))
    case Check(p) =>
      var i := PcOf(s, p).i;
      if i in s.files then Goto(s.(locks := s.locks - {i}), p, Searching(i + 1)) else Goto(s, p, Creating(i))
    case Open(p) => var i := PcOf(s, p).i; Goto(s.(files := s.files[i := Partial]), p, Opened(i))
    case Dump(p) =>
      var i := PcOf(s, p).i;
      Goto(s.(files := s.files[i := Written(s.extras[p], VERSION)], log := s.log + [s.extras[p]]), p, Saved(i))
    case Unlock(p) => Goto(s.(locks := s.locks - {PcOf(s, p).i}), p, Unlocked)
    case Release(p) => Goto(s, p, Idle)
    case MergeStart => s.(merger := Merging(s.files.Keys, false))
    case MergeOne(f) => MergeFile(policy, s, f)
    case MergeStore => s.(merger := Resting, disk := if s.merger.haveData then s.data else s.disk)
  }

  /** A quiet start: nobody active, the merger has loaded the merged cache; stray files may lie around. */
  ghost predicate Init<V(!new)>(s: State<V>) {
    && s.pcs == map[] && s.locks == map[] && s.extras == map[] && s.log == []
    && s.merger == Resting && s.data == s.disk
  }

  // ---- what every step keeps ----

  /** The per-number lock is held by exactly the process that is between taking and releasing it. */
  ghost predicate LocksOk<V(!new)>(s: State<V>) {
    (forall i {:trigger LockOk(s, i)} :: LockOk(s, i)) && (forall p {:trigger HolderOk(s, p)} :: HolderOk(s, p))
  }

  ghost predicate LockOk<V(!new)>(s: State<V>, i: nat) {
    i in s.locks ==> HoldsNumber(PcOf(s, s.locks[i])) && PcOf(s, s.locks[i]).i == i
  }

  ghost predicate HolderOk<V(!new)>(s: State<V>, p: Pid) {
    HoldsNumber(PcOf(s, p)) ==> PcOf(s, p).i in s.locks && s.locks[PcOf(s, p).i] == p
  }

  /** A number found free stays free; what a process opened is its own until it is saved. */
  ghost predicate FilesOk<V(!new)>(s: State<V>) {
    forall p {:trigger FileOk(s, p)} :: FileOk(s, p)
  }

  ghost predicate FileOk<V(!new)>(s: State<V>, p: Pid) {
    var pc := PcOf(s, p);
    && (pc.Creating? ==> pc.i !in s.files)
    && (pc.Opened? ==> pc.i in s.files && s.files[pc.i] == Partial)
    && (pc.Saved? ==> pc.i in s.files)
    && (pc != Idle ==> p in s.extras && |s.extras[p]| == |s.data| && s.merger.Resting?)
  }

  /** Every number a searching process passed by is taken: by a file, or by a process about to make one. */
  ghost predicate SearchOk<V(!new)>(s: State<V>) {
    forall p {:trigger PassedTaken(s, p)} :: PassedTaken(s, p)
  }

  ghost predicate PassedTaken<V(!new)>(s: State<V>, p: Pid) {
    var pc := PcOf(s, p);
    pc.Searching? || HoldsNumber(pc) ==> forall j :: p <= j < pc.i ==> j in s.files || j in s.locks
  }

  predicate Pending<V>(s: State<V>, j: nat, k: string) {
    exists f :: f in s.files && s.files[f].Written? && s.files[f].version == VERSION && Holds(s.files[f].data, j, k)
  }

  /** Every key saved is in a pending file or in the merger's data. */
  ghost predicate Conserved<V(!new)>(s: State<V>) {
    && (forall n, j, k :: 0 <= n < |s.log| && Holds(s.log[n], j, k) ==> Pending(s, j, k) || Holds(s.data, j, k))
    && (forall n :: 0 <= n < |s.log| ==> |s.log[n]| == |s.data|)
  }

  /** Between merges the merged file is what the merger has in memory. */
  ghost predicate DiskOk<V(!new)>(s: State<V>) {
    (s.merger.Resting? || !s.merger.haveData) ==> s.disk == s.data
  }

  ghost predicate Inv<V(!new)>(s: State<V>) {
    && (forall f :: f in s.files && s.files[f].Written? && s.files[f].version == VERSION ==>
        |s.files[f].data| == |s.data|)
    && LocksOk(s) && FilesOk(s) && SearchOk(s) && Conserved(s) && DiskOk(s)
    && (s.merger.Merging? ==> s.files.Keys == s.merger.todo)
  }

  predicate MovesProcess<V>(a: Action<V>) {
    !a.MergeStart? && !a.MergeOne? && !a.MergeStore?
  }

  lemma StepLocks<V(!new)>(policy: Policy, s: State<V>, a: Action<V>)
    requires LocksOk(s) && Enabled(s, a)
    ensures LocksOk(Next(policy, s, a))
  {
    forall i {
      StepLock(policy, s, a, i);
    }
    forall p {
      StepHolder(policy, s, a, p);
    }
  }

  lemma StepLock<V(!new)>(policy: Policy, s: State<V>, a: Action<V>, i: nat)
    requires LocksOk(s) && Enabled(s, a)
    ensures LockOk(Next(policy, s, a), i)
  {
    assert LockOk(s, i);
    assert MovesProcess(a) ==> HolderOk(s, a.pid);
  }

  lemma StepHolder<V(!new)>(policy: Policy, s: State<V>, a: Action<V>, p: Pid)
    requires LocksOk(s) && Enabled(s, a)
    ensures HolderOk(Next(policy, s, a), p)
  {
    assert HolderOk(s, p);
    assert MovesProcess(a) ==> HolderOk(s, a.pid);
  }

  lemma StepFiles<V(!new)>(policy: Policy, s: State<V>, a: Action<V>)
    requires LocksOk(s) && FilesOk(s) && Enabled(s, a)
    ensures FilesOk(Next(policy, s, a))
  {
    forall p
      ensures FileOk(Next(policy, s, a), p)
    {
      assert FileOk(s, p) && HolderOk(s, p);
      assert MovesProcess(a) ==> FileOk(s, a.pid) && HolderOk(s, a.pid);
    }
  }

  lemma StepSearch<V(!new)>(policy: Policy, s: State<V>, a: Action<V>)
    requires LocksOk(s) && FilesOk(s) && SearchOk(s) && Enabled(s, a)
    ensures SearchOk(Next(policy, s, a))
  {
    forall p
      ensures PassedTaken(Next(policy, s, a), p)
    {
      assert PassedTaken(s, p) && FileOk(s, p);
      assert MovesProcess(a) ==> FileOk(s, a.pid) && HolderOk(s, a.pid);
    }
  }

  lemma StepConserved<V(!new)>(policy: Policy, s: State<V>, a: Action<V>)
    requires Inv(s) && Enabled(s, a)
    ensures Conserved(Next(policy, s, a))
  {
    var s' := Next(policy, s, a);
    assert MovesProcess(a) ==> FileOk(s, a.pid);
    forall n, j, k | 0 <= n < |s'.log| && Holds(s'.log[n], j, k)
      ensures Pending(s', j, k) || Holds(s'.data, j, k)
    {
      match a {
        case Open(p) => KeptByWriter(s, s', p, j, k);
        case Dump(p) =>
          KeptByWriter(s, s', p, j, k);
          if n == |s.log| {
            assert PcOf(s, p).i in s'.files;
          }
        case MergeOne(f) => KeptByMerger(policy, s, f, j, k);
        case MergeStore =>
        case _ => if Pending(s, j, k) {
          var f :| f in s.files && s.files[f].Written? && s.files[f].version == VERSION && Holds(s.files[f].data, j, k);
          assert f in s'.files;
        }
      }
    }
  }

  /** A writer touches only the file it made. */
  lemma KeptByWriter<V(!new)>(s: State<V>, s': State<V>, p: Pid, j: nat, k: string)
    requires Inv(s) && s'.data == s.data
    requires p in s.pcs && (s.pcs[p].Creating? || s.pcs[p].Opened?)
    requires forall f :: f in s.files && f != s.pcs[p].i ==> f in s'.files && s'.files[f] == s.files[f]
    ensures Pending(s, j, k) ==> Pending(s', j, k)
  {
    assert FileOk(s, p);
    if Pending(s, j, k) {
      var f :| f in s.files && s.files[f].Written? && s.files[f].version == VERSION && Holds(s.files[f].data, j, k);
      assert f in s'.files && s'.files[f] == s.files[f];
    }
  }

  lemma KeptByMerger<V(!new)>(policy: Policy, s: State<V>, f: nat, j: nat, k: string)
    requires Inv(s) && s.merger.Merging?
    ensures var s' := MergeFile(policy, s, f);
            Pending(s, j, k) || Holds(s.data, j, k) ==> Pending(s', j, k) || Holds(s'.data, j, k)
  {
    var s' := MergeFile(policy, s, f);
    if f in s.files && s.files[f].Written? && s.files[f].version == VERSION {
      MergeKeeps(policy, s.data, s.files[f].data, j, k);
    }
    if Pending(s, j, k) {
      var g :| g in s.files && s.files[g].Written? && s.files[g].version == VERSION && Holds(s.files[g].data, j, k);
      assert g != f ==> g in s'.files && s'.files[g] == s.files[g];
    }
  }

  lemma StepInv<V(!new)>(policy: Policy, s: State<V>, a: Action<V>)
    requires Inv(s) && Enabled(s, a)
    ensures Inv(Next(policy, s, a))
  {
    assert MovesProcess(a) ==> FileOk(s, a.pid);
    StepLocks(policy, s, a);
    StepFiles(policy, s, a);
    StepSearch(policy, s, a);
    StepConserved(policy, s, a);
  }

  // ---- whole runs ----

  ghost predicate ValidRun<V(!new)>(policy: Policy, s: State<V>, run: seq<Action<V>>)
    decreases |run|
  {
    run != [] ==> Enabled(s, run[0]) && ValidRun(policy, Next(policy, s, run[0]), run[1..])
  }

  function Run<V(!new)>(policy: Policy, s: State<V>, run: seq<Action<V>>): State<V>
    requires ValidRun(policy, s, run)
    decreases |run|
  {
    if run == [] then s else Run(policy, Next(policy, s, run[0]), run[1..])
  }

  lemma {:induction false} RunInv<V(!new)>(policy: Policy, s: State<V>, run: seq<Action<V>>)
    requires Inv(s) && ValidRun(policy, s, run)
    ensures Inv(Run(policy, s, run))
    decreases |run|
  {
    if run != [] {
      StepInv(policy, s, run[0]);
      RunInv(policy, Next(policy, s, run[0]), run[1..]);
    }
  }

  lemma InitInv<V(!new)>(s: State<V>)
    requires Init(s)
    requires forall f :: f in s.files && s.files[f].Written? && s.files[f].version == VERSION ==>
               |s.files[f].data| == |s.data|
    ensures Inv(s)
  {
  }

  /** No writer ever touches an extras file that somebody finished: only the merger removes them. */
  lemma NeverOverwritten<V(!new)>(policy: Policy, s: State<V>, a: Action<V>, f: nat)
    requires Inv(s) && Enabled(s, a) && f in s.files && s.files[f].Written?
    ensures var s' := Next(policy, s, a);
            (f in s'.files && s'.files[f] == s.files[f]) || a == MergeOne(f)
  {
    assert MovesProcess(a) ==> FileOk(s, a.pid);
  }

  /** The merger never meets a file in the making. */
  lemma NoHalfWrittenMerged<V(!new)>(s: State<V>, p: Pid)
    requires Inv(s) && s.merger.Merging?
    ensures PcOf(s, p) == Idle
  {
    assert FileOk(s, p);
  }

  /** Every saved key is in a pending extras file or in the merged cache file, whenever no merge is going on. */
  lemma NothingLost<V(!new)>(policy: Policy, s: State<V>, run: seq<Action<V>>, n: nat, j: nat, k: string)
    requires Inv(s) && ValidRun(policy, s, run)
    requires var s' := Run(policy, s, run); s'.merger.Resting? && n < |s'.log| && Holds(s'.log[n], j, k)
    ensures var s' := Run(policy, s, run); Pending(s', j, k) || Holds(s'.disk, j, k)
  {
    RunInv(policy, s, run);
  }

  /** When a merge ends, every key saved so far is in the merged cache file, and no extras file is left. */
  lemma MergeComplete<V(!new)>(policy: Policy, s: State<V>, n: nat, j: nat, k: string)
    requires Inv(s) && Enabled(s, MergeStore) && n < |s.log| && Holds(s.log[n], j, k)
    ensures var s' := Next(policy, s, MergeStore); Holds(s'.disk, j, k) && s'.files == map[]
  {
    assert s.files.Keys == {};
  }

  // ---- from the call to the log ----

  /** A process that calls to save sets out exactly if it has an entry in any table, and then with all of them. */
  lemma StartExactly<V(!new)>(policy: Policy, s: State<V>, p: Pid, extras: Data<V>)
    requires Enabled(s, Start(p, extras))
    ensures var s' := Next(policy, s, Start(p, extras));
            && ((exists j: nat, k: string :: Holds(extras, j, k)) <==> PcOf(s', p) == Searching(p))
            && (PcOf(s', p) == Searching(p) ==> p in s'.extras && s'.extras[p] == extras)
            && (PcOf(s', p) != Searching(p) ==> s' == s)
  {
    if exists j: nat, k: string :: Holds(extras, j, k) {
      var j: nat, k: string :| Holds(extras, j, k);
      assert extras[j] != map[];
    }
    if AnyData(extras) {
      var j :| 0 <= j < |extras| && extras[j] != map[];
      assert extras[j].Keys != {};
      var k :| k in extras[j];
      assert Holds(extras, j, k);
    }
  }

  /** The entries that p set out with are still in its hands, or in the log. */
  ghost predicate Underway<V(!new)>(s: State<V>, p: Pid, extras: Data<V>) {
    || extras in s.log
    || (p in s.extras && s.extras[p] == extras
        && (PcOf(s, p).Searching? || PcOf(s, p).Locked? || PcOf(s, p).Creating? || PcOf(s, p).Opened?))
  }

  lemma StepUnderway<V(!new)>(policy: Policy, s: State<V>, a: Action<V>, p: Pid, extras: Data<V>)
    requires Enabled(s, a) && Underway(s, p, extras)
    ensures Underway(Next(policy, s, a), p, extras)
  {
    var s' := Next(policy, s, a);
    if a == Dump(p) && extras !in s.log {
      assert s'.log[|s.log|] == extras;
    }
    if extras in s.log {
      var n :| 0 <= n < |s.log| && s.log[n] == extras;
      assert s'.log[n] == extras;
    }
  }

  lemma {:induction false} RunUnderway<V(!new)>(policy: Policy, s: State<V>, run: seq<Action<V>>, p: Pid,
                                                extras: Data<V>)
    requires ValidRun(policy, s, run) && Underway(s, p, extras)
    ensures Underway(Run(policy, s, run), p, extras)
    decreases |run|
  {
    if run != [] {
      StepUnderway(policy, s, run[0], p, extras);
      RunUnderway(policy, Next(policy, s, run[0]), run[1..], p, extras);
    }
  }

  /** Whoever set out to save and has come back has saved what it set out with. */
  lemma StartedIsSaved<V(!new)>(policy: Policy, s: State<V>, p: Pid, extras: Data<V>, run: seq<Action<V>>)
    requires Enabled(s, Start(p, extras)) && (exists j: nat, k: string :: Holds(extras, j, k))
    requires ValidRun(policy, Next(policy, s, Start(p, extras)), run)
    requires PcOf(Run(policy, Next(policy, s, Start(p, extras)), run), p) == Idle
    ensures extras in Run(policy, Next(policy, s, Start(p, extras)), run).log
  {
    StartExactly(policy, s, p, extras);
    RunUnderway(policy, Next(policy, s, Start(p, extras)), run, p, extras);
  }

  /**
   Nothing that a process called to save is lost: once it has come back, every key is in a pending extras file or in
   the merged cache file, whenever no merge is going on, whatever other processes do meanwhile.
   */
  lemma NothingStartedLost<V(!new)>(policy: Policy, s: State<V>, p: Pid, extras: Data<V>, run: seq<Action<V>>, j: nat,
                                    k: string)
    requires Inv(s) && Enabled(s, Start(p, extras)) && Holds(extras, j, k)
    requires ValidRun(policy, Next(policy, s, Start(p, extras)), run)
    requires var s' := Run(policy, Next(policy, s, Start(p, extras)), run); PcOf(s', p) == Idle && s'.merger.Resting?
    ensures var s' := Run(policy, Next(policy, s, Start(p, extras)), run); Pending(s', j, k) || Holds(s'.disk, j, k)
  {
    var s1 := Next(policy, s, Start(p, extras));
    StartedIsSaved(policy, s, p, extras, run);
    var s' := Run(policy, s1, run);
    var n :| 0 <= n < |s'.log| && s'.log[n] == extras;
    StepInv(policy, s, Start(p, extras));
    NothingLost(policy, s1, run, n, j, k);
  }

  /** And after the next merge it is in the merged cache file. */
  lemma StartedIsMerged<V(!new)>(policy: Policy, s: State<V>, p: Pid, extras: Data<V>, run: seq<Action<V>>, j: nat,
                                 k: string)
    requires Inv(s) && Enabled(s, Start(p, extras)) && Holds(extras, j, k)
    requires ValidRun(policy, Next(policy, s, Start(p, extras)), run)
    requires Enabled(Run(policy, Next(policy, s, Start(p, extras)), run), MergeStore)
    ensures var s' := Run(policy, Next(policy, s, Start(p, extras)), run);
            Holds(Next(policy, s', MergeStore).disk, j, k)
  {
    var s1 := Next(policy, s, Start(p, extras));
    StepInv(policy, s, Start(p, extras));
    RunInv(policy, s1, run);
    var s' := Run(policy, s1, run);
    NoHalfWrittenMerged(s', p);
    StartedIsSaved(policy, s, p, extras, run);
    var n :| 0 <= n < |s'.log| && s'.log[n] == extras;
    MergeComplete(policy, s', n, j, k);
  }

  // ---- values ----

  /** In the base class a key that has a value keeps it, whatever is merged. */
  lemma {:induction false} FirstValueStays<V(!new)>(s: State<V>, run: seq<Action<V>>, j: nat, k: string)
    requires Inv(s) && ValidRun(KeepFirst, s, run) && Holds(s.data, j, k)
    ensures var s' := Run(KeepFirst, s, run); Holds(s'.data, j, k) && s'.data[j][k] == s.data[j][k]
    decreases |run|
  {
    if run != [] {
      StepInv(KeepFirst, s, run[0]);
      if run[0].MergeOne? && run[0].f in s.files && s.files[run[0].f].Written? && s.files[run[0].f].version == VERSION {
        MergeKeeps(KeepFirst, s.data, s.files[run[0].f].data, j, k);
      }
      FirstValueStays(Next(KeepFirst, s, run[0]), run[1..], j, k);
    }
  }

  ghost predicate SoundData<V(!new)>(d: Data<V>, sound: (nat, string, V) -> bool) {
    forall j: nat, k: string :: Holds(d, j, k) ==> sound(j, k, d[j][k])
  }

  /** Whatever holds of every entry in memory, on disk, pending, or about to be saved. */
  ghost predicate Sound<V(!new)>(s: State<V>, sound: (nat, string, V) -> bool) {
    && SoundData(s.data, sound) && SoundData(s.disk, sound)
    && (forall f :: f in s.files && s.files[f].Written? && s.files[f].version == VERSION ==>
        SoundData(s.files[f].data, sound))
    && (forall p :: p in s.extras ==> SoundData(s.extras[p], sound))
  }

  lemma StepSound<V(!new)>(policy: Policy, s: State<V>, a: Action<V>, sound: (nat, string, V) -> bool)
    requires Inv(s) && Enabled(s, a) && Sound(s, sound)
    requires a.Start? ==> SoundData(a.extras, sound)
    ensures Sound(Next(policy, s, a), sound)
  {
    if a.MergeOne? && a.f in s.files && s.files[a.f].Written? && s.files[a.f].version == VERSION {
      var merged := Merge(policy, s.data, s.files[a.f].data);
      forall j: nat, k: string | Holds(merged, j, k)
        ensures sound(j, k, merged[j][k])
      {
        MergeKeeps(policy, s.data, s.files[a.f].data, j, k);
      }
    }
  }

  /** If processes only save sound entries, the cache only ever holds sound entries, in either merge policy. */
  lemma {:induction false} RunSound<V(!new)>(policy: Policy, s: State<V>, run: seq<Action<V>>,
                                      sound: (nat, string, V) -> bool)
    requires Inv(s) && ValidRun(policy, s, run) && Sound(s, sound)
    requires forall a :: a in run && a.Start? ==> SoundData(a.extras, sound)
    ensures Sound(Run(policy, s, run), sound)
    decreases |run|
  {
    if run != [] {
      assert run[0] in run;
      StepInv(policy, s, run[0]);
      StepSound(policy, s, run[0], sound);
      RunSound(policy, Next(policy, s, run[0]), run[1..], sound);
    }
  }

  // ---- the search for a free number ----

  ghost function Holders<V(!new)>(s: State<V>): set<Pid> {
    set p | p in s.pcs && s.pcs[p] != Idle
  }

  lemma {:induction false} RangeSize(lo: nat, hi: nat, taken: set<nat>)
    requires lo <= hi && forall j :: lo <= j < hi ==> j in taken
    ensures hi - lo <= |taken|
    decreases hi - lo
  {
    if lo < hi {
      RangeSize(lo, hi - 1, taken - {hi - 1});
    }
  }

  lemma {:induction false} InjectiveSize<V(!new)>(s: State<V>, numbers: set<nat>, holders: set<Pid>)
    requires LocksOk(s) && numbers <= s.locks.Keys && forall i :: i in numbers ==> s.locks[i] in holders
    ensures |numbers| <= |holders|
    decreases |numbers|
  {
    if numbers != {} {
      var i := SomeElement(numbers);
      assert LockOk(s, i);
      forall j | j in numbers && j != i
        ensures s.locks[j] != s.locks[i]
      {
        assert LockOk(s, j);
      }
      InjectiveSize(s, numbers - {i}, holders - {s.locks[i]});
    }
  }

  /** A process has never tried more numbers than there are extras files and active processes. */
  lemma ProbesBounded<V(!new)>(s: State<V>, p: Pid)
    requires Inv(s) && p in s.pcs && (s.pcs[p].Searching? || HoldsNumber(s.pcs[p]))
    ensures s.pcs[p].i - p <= |s.files| + |Holders(s)|
  {
    var i := s.pcs[p].i;
    assert PassedTaken(s, p);
    forall j | j in s.locks
      ensures s.locks[j] in Holders(s)
    {
      assert LockOk(s, j);
    }
    if p < i {
      RangeSize(p, i, s.files.Keys + s.locks.Keys);
      InjectiveSize(s, s.locks.Keys, Holders(s));
      UnionSize(s.files.Keys, s.locks.Keys);
    }
  }

  lemma UnionSize(a: set<nat>, b: set<nat>)
    ensures |a + b| <= |a| + |b|
  {
    assert |a + b| == |a| + |b - a| by {
      assert a + b == a + (b - a);
    }
    assert |b| == |b - a| + |b * a| by {
      assert b == (b - a) + (b * a);
    }
  }

  // ---- the search over whole runs ----

  /** The processes that may still make a file. */
  ghost function Makers<V(!new)>(s: State<V>): set<Pid> {
    set p | p in s.pcs && (s.pcs[p].Searching? || s.pcs[p].Locked? || s.pcs[p].Creating?)
  }

  /** What bounds every search that is under way, now and as long as nobody starts to save. */
  ghost function Crowd<V(!new)>(s: State<V>): nat {
    |s.files| + |Holders(s)| + |Makers(s)|
  }

  function Starts<V>(run: seq<Action<V>>): nat {
    if |run| == 0 then 0 else (if run[0].Start? then 1 else 0) + Starts(run[1..])
  }

  lemma AtMostOneMore<T>(a: set<T>, b: set<T>, x: T)
    requires b <= a + {x}
    ensures |b| <= |a| + 1
    ensures x in a || x !in b ==> |b| <= |a|
    ensures x in a && x !in b ==> |b| < |a|
  {
    Subset(b - {x}, a - {x});
  }

  lemma {:induction false} Subset<T>(a: set<T>, b: set<T>)
    requires a <= b
    ensures |a| <= |b|
    decreases |a|
  {
    if a != {} {
      var x := SomeElement(a);
      Subset(a - {x}, b - {x});
    }
  }

  lemma StepHolders<V(!new)>(policy: Policy, s: State<V>, a: Action<V>)
    requires Enabled(s, a)
    ensures |Holders(Next(policy, s, a))| <= |Holders(s)| + if a.Start? then 1 else 0
  {
    var s' := Next(policy, s, a);
    if MovesProcess(a) {
      AtMostOneMore(Holders(s), Holders(s'), a.pid);
    } else {
      assert Holders(s') == Holders(s);
    }
  }

  lemma StepMakers<V(!new)>(policy: Policy, s: State<V>, a: Action<V>)
    requires Enabled(s, a)
    ensures |Makers(Next(policy, s, a))| <= |Makers(s)| + if a.Start? then 1 else if a.Open? then -1 else 0
  {
    var s' := Next(policy, s, a);
    if MovesProcess(a) {
      AtMostOneMore(Makers(s), Makers(s'), a.pid);
    } else {
      assert Makers(s') == Makers(s);
    }
  }

  lemma StepFileCount<V(!new)>(policy: Policy, s: State<V>, a: Action<V>)
    requires FilesOk(s) && Enabled(s, a)
    ensures |Next(policy, s, a).files| <= |s.files| + if a.Open? then 1 else 0
  {
    var s' := Next(policy, s, a);
    if a.Open? || a.Dump? {
      assert FileOk(s, a.pid);
      AtMostOneMore(s.files.Keys, s'.files.Keys, PcOf(s, a.pid).i);
    } else {
      Subset(s'.files.Keys, s.files.Keys);
    }
  }

  /** Only a process that starts to save makes the crowd larger: it is one more, and may make one more file. */
  lemma StepCrowd<V(!new)>(policy: Policy, s: State<V>, a: Action<V>)
    requires FilesOk(s) && Enabled(s, a)
    ensures Crowd(Next(policy, s, a)) <= Crowd(s) + if a.Start? then 2 else 0
  {
    StepHolders(policy, s, a);
    StepMakers(policy, s, a);
    StepFileCount(policy, s, a);
  }

  /** Over any run: a search has tried no more numbers than the crowd at the start and the savers that came allow. */
  lemma {:induction false} SearchBounded<V(!new)>(policy: Policy, s: State<V>, run: seq<Action<V>>, p: Pid)
    requires Inv(s) && ValidRun(policy, s, run)
    requires var pc := PcOf(Run(policy, s, run), p); pc.Searching? || HoldsNumber(pc)
    ensures PcOf(Run(policy, s, run), p).i - p <= Crowd(s) + 2 * Starts(run)
    decreases |run|
  {
    if run == [] {
      ProbesBounded(s, p);
    } else {
      StepInv(policy, s, run[0]);
      StepCrowd(policy, s, run[0]);
      SearchBounded(policy, Next(policy, s, run[0]), run[1..], p);
    }
  }

  /** How often p calls for a lock. */
  function Tries<V>(run: seq<Action<V>>, p: Pid): nat {
    if |run| == 0 then 0 else (if run[0] == TryLock(p) then 1 else 0) + Tries(run[1..], p)
  }

  /** The calls p has made in its search. */
  function Made(pc: Pc, p: Pid): int {
    if pc.Searching? then pc.i - p else if HoldsNumber(pc) then pc.i - p + 1 else 0
  }

  lemma MadeBounded<V(!new)>(s: State<V>, p: Pid)
    requires Inv(s)
    ensures Made(PcOf(s, p), p) <= Crowd(s) + 1
  {
    if PcOf(s, p).Searching? || HoldsNumber(PcOf(s, p)) {
      ProbesBounded(s, p);
    }
  }

  /** Every call but the one of p itself leaves the count of p alone. */
  lemma StepMade<V(!new)>(policy: Policy, s: State<V>, a: Action<V>, p: Pid)
    requires Enabled(s, a) && !(a.Start? && a.pid == p) && a != Unlock(p)
    ensures Made(PcOf(Next(policy, s, a), p), p) == Made(PcOf(s, p), p) + if a == TryLock(p) then 1 else 0
  {
  }

  lemma {:induction false} NoMoreTries<V(!new)>(policy: Policy, s: State<V>, run: seq<Action<V>>, p: Pid)
    requires ValidRun(policy, s, run) && (PcOf(s, p).Unlocked? || PcOf(s, p).Idle?)
    requires forall a :: a in run && a.Start? ==> a.pid != p
    ensures Tries(run, p) == 0
    decreases |run|
  {
    if run != [] {
      assert run[0] in run;
      NoMoreTries(policy, Next(policy, s, run[0]), run[1..], p);
    }
  }

  /**
   Every search ends: until p starts to save again, it calls for a lock at most as often as the crowd at the start and
   the savers that come allow.
   */
  lemma {:induction false} SearchEnds<V(!new)>(policy: Policy, s: State<V>, run: seq<Action<V>>, p: Pid)
    requires Inv(s) && ValidRun(policy, s, run) && forall a :: a in run && a.Start? ==> a.pid != p
    ensures Made(PcOf(s, p), p) + Tries(run, p) <= Crowd(s) + 2 * Starts(run) + 1
    decreases |run|
  {
    if run == [] {
      MadeBounded(s, p);
    } else {
      var a, s' := run[0], Next(policy, s, run[0]);
      assert a in run;
      StepInv(policy, s, a);
      StepCrowd(policy, s, a);
      if a == Unlock(p) {
        NoMoreTries(policy, s', run[1..], p);
        MadeBounded(s, p);
      } else {
        StepMade(policy, s, a, p);
        SearchEnds(policy, s', run[1..], p);
      }
    }
  }
}
