/**
 The recipe cache: saving it in one file per kind of information and loading it back, and deciding, recipe by
 recipe, whether what was loaded is still good.
 */
module RecipeStore {
  import opened Sequences

  /** A recipe's information of one class. The core class carries what the validity check looks at. */
  datatype Info =
    | Core(timestamp: int, depends: seq<(string, int)>, checksums: Option<seq<string>>, appends: seq<string>,
           variants: seq<string>)
    | Extra(name: string, payload: int)

  const CORE := "CoreRecipeInfo"

  function ClassOf(i: Info): string {
    if i.Core? then CORE else i.name
  }

  /** `depends_cache` */
  type Cache = map<string, seq<Info>>

  function At(c: Cache, k: string): seq<Info> {
    if k in c then c[k] else []
  }

  /** What the pickle stream of a file yields after its two version headers; Junk ends the reading. */
  datatype Entry = Entry(key: string, value: Info) | Junk
  datatype File = Unreadable | File(cacheVersion: string, bitbakeVersion: string, entries: seq<Entry>)

  datatype Versions = Versions(cache: string, bitbake: string)

  // ---- saving ----

  function InfosOf(infos: seq<Info>, cls: string): seq<Info> {
    if infos == [] then []
    else InfosOf(infos[..|infos| - 1], cls) + if ClassOf(infos[|infos| - 1]) == cls then [infos[|infos| - 1]] else []
  }

  function EntriesOf(k: string, infos: seq<Info>): seq<Entry> {
    seq(|infos|, i requires 0 <= i < |infos| => Entry(k, infos[i]))
  }

  /** The entries of one class's file; keys is the order of iteration over the dictionary. */
  function Entries(c: Cache, keys: seq<string>, cls: string): seq<Entry>
    requires forall k :: k in keys ==> k in c
  {
    if keys == [] then []
    else Entries(c, keys[..|keys| - 1], cls) + EntriesOf(keys[|keys| - 1], InfosOf(c[keys[|keys| - 1]], cls))
  }

  function Saved(v: Versions, c: Cache, keys: seq<string>, classes: seq<string>): seq<File>
    requires forall k :: k in keys ==> k in c
  {
    seq(|classes|, i requires 0 <= i < |classes| => File(v.cache, v.bitbake, Entries(c, keys, classes[i])))
  }

  // ---- loading ----

  function Append(c: Cache, k: string, i: Info): Cache {
    c[k := At(c, k) + [i]]
  }

  /** The entries up to the first that is not a recipe's information. */
  function LoadEntries(c: Cache, entries: seq<Entry>): Cache
    decreases |entries|
  {
    if entries == [] || entries[0].Junk? then c
    else LoadEntries(Append(c, entries[0].key, entries[0].value), entries[1..])
  }

  /** All files in class order; the number returned is 0 when a header does not fit, and nothing more is read. */
  function Load(v: Versions, c: Cache, files: seq<File>): (Cache, nat)
    decreases |files|
  {
    if files == [] then (c, |c|)
    else if files[0].Unreadable? || files[0].cacheVersion != v.cache || files[0].bitbakeVersion != v.bitbake then (c, 0)
    else Load(v, LoadEntries(c, files[0].entries), files[1..])
  }

  // ---- save, then load ----

  /** An array regrouped by class, in class order. */
  function Regrouped(infos: seq<Info>, classes: seq<string>): seq<Info> {
    if classes == [] then [] else Regrouped(infos, classes[..|classes| - 1]) + InfosOf(infos, classes[|classes| - 1])
  }

  ghost predicate Lists(keys: seq<string>, c: Cache) {
    && (forall k :: k in c <==> k in keys)
    && Distinct(keys)
  }

  /** What one key gets from a list of entries. */
  function ForKey(entries: seq<Entry>, k: string): seq<Info> {
    if entries == [] then []
    else
      var last := entries[|entries| - 1];
      ForKey(entries[..|entries| - 1], k) + if last.Entry? && last.key == k then [last.value] else []
  }

  predicate Clean(entries: seq<Entry>) {
    forall e :: e in entries ==> e.Entry?
  }

  lemma {:induction false} LoadEntriesConcat(c: Cache, a: seq<Entry>, b: seq<Entry>)
    requires Clean(a)
    ensures LoadEntries(c, a + b) == LoadEntries(LoadEntries(c, a), b)
    decreases |a|
  {
    if a == [] {
      assert a + b == b;
    } else {
      assert a[0] in a;
      assert (a + b)[1..] == a[1..] + b;
      LoadEntriesConcat(Append(c, a[0].key, a[0].value), a[1..], b);
    }
  }

  /** c has gained, over b, what the entries hold for the key. */
  ghost predicate Gained(b: Cache, c: Cache, entries: seq<Entry>, k: string) {
    && At(c, k) == At(b, k) + ForKey(entries, k)
    && (k in c <==> k in b || ForKey(entries, k) != [])
  }

  lemma GainedMore(b: Cache, c: Cache, entries: seq<Entry>, last: Entry, k: string)
    requires Gained(b, c, entries, k) && last.Entry?
    ensures Gained(b, Append(c, last.key, last.value), entries + [last], k)
  {
    assert (entries + [last])[..|entries|] == entries;
  }

  lemma {:induction false} LoadedAt(c: Cache, entries: seq<Entry>, k: string)
    requires Clean(entries)
    ensures Gained(c, LoadEntries(c, entries), entries, k)
    decreases |entries|
  {
    if entries != [] {
      var front, last := entries[..|entries| - 1], entries[|entries| - 1];
      assert entries == front + [last] && last in entries;
      assert forall e :: e in front ==> e in entries;
      LoadedAt(c, front, k);
      GainedMore(c, LoadEntries(c, front), front, last, k);
      LoadLast(c, front, last);
    }
  }

  lemma LoadLast(c: Cache, entries: seq<Entry>, last: Entry)
    requires Clean(entries) && last.Entry?
    ensures LoadEntries(c, entries + [last]) == Append(LoadEntries(c, entries), last.key, last.value)
  {
    LoadEntriesConcat(c, entries, [last]);
    assert [last][1..] == [];
  }

  lemma {:induction false} ForKeyConcat(a: seq<Entry>, b: seq<Entry>, k: string)
    ensures ForKey(a + b, k) == ForKey(a, k) + ForKey(b, k)
  {
    if b == [] {
      assert a + b == a;
    } else {
      ForKeyConcat(a, b[..|b| - 1], k);
      assert (a + b)[..|a + b| - 1] == a + b[..|b| - 1];
    }
  }

  lemma {:induction false} ForKeyOfOne(j: string, infos: seq<Info>, k: string)
    ensures ForKey(EntriesOf(j, infos), k) == if j == k then infos else []
  {
    if infos != [] {
      var front := infos[..|infos| - 1];
      ForKeyOfOne(j, front, k);
      assert EntriesOf(j, infos)[..|infos| - 1] == EntriesOf(j, front);
    }
  }

  lemma EntriesLast(c: Cache, keys: seq<string>, last: string, cls: string)
    requires last in c && forall j :: j in keys ==> j in c
    ensures forall j :: j in keys + [last] ==> j in c
    ensures Entries(c, keys + [last], cls) == Entries(c, keys, cls) + EntriesOf(last, InfosOf(c[last], cls))
  {
    assert (keys + [last])[..|keys|] == keys;
  }

  lemma CleanConcat(a: seq<Entry>, b: seq<Entry>)
    requires Clean(a) && Clean(b)
    ensures Clean(a + b)
  {
  }

  lemma CleanOfOne(k: string, infos: seq<Info>)
    ensures Clean(EntriesOf(k, infos))
  {
  }

  lemma {:induction false} CleanFile(c: Cache, keys: seq<string>, cls: string)
    requires forall j :: j in keys ==> j in c
    ensures Clean(Entries(c, keys, cls))
  {
    if keys != [] {
      var front, last := keys[..|keys| - 1], keys[|keys| - 1];
      CleanFile(c, front, cls);
      CleanOfOne(last, InfosOf(c[last], cls));
      CleanConcat(Entries(c, front, cls), EntriesOf(last, InfosOf(c[last], cls)));
    }
  }

  ghost predicate Distinct(names: seq<string>) {
    forall i, j :: 0 <= i < j < |names| ==> names[i] != names[j]
  }

  lemma DistinctFront(front: seq<string>, last: string)
    requires Distinct(front + [last])
    ensures Distinct(front) && last !in front
  {
    var names := front + [last];
    forall i, j | 0 <= i < j < |front|
      ensures front[i] != front[j]
    {
      assert names[i] == front[i] && names[j] == front[j];
    }
    assert names[|front|] == last;
    forall i | 0 <= i < |front|
      ensures front[i] != last
    {
      assert names[i] == front[i];
    }
  }

  lemma {:induction false} ForKeyOfFile(c: Cache, keys: seq<string>, cls: string, k: string)
    requires forall j :: j in keys ==> j in c
    requires Distinct(keys)
    ensures ForKey(Entries(c, keys, cls), k) == if k in keys then InfosOf(c[k], cls) else []
    decreases |keys|
  {
    if keys != [] {
      var front, last := keys[..|keys| - 1], keys[|keys| - 1];
      assert keys == front + [last];
      DistinctFront(front, last);
      ForKeyOfFile(c, front, cls, k);
      ForKeyOfMore(c, front, last, cls, k);
    }
  }

  lemma ForKeyOfMore(c: Cache, keys: seq<string>, last: string, cls: string, k: string)
    requires last in c && forall j :: j in keys ==> j in c
    requires ForKey(Entries(c, keys, cls), k) == if k in keys then InfosOf(c[k], cls) else []
    requires last !in keys
    ensures forall j :: j in keys + [last] ==> j in c
    ensures ForKey(Entries(c, keys + [last], cls), k) == if k in keys + [last] then InfosOf(c[k], cls) else []
  {
    var infos := InfosOf(c[last], cls);
    EntriesLast(c, keys, last, cls);
    ForKeyConcat(Entries(c, keys, cls), EntriesOf(last, infos), k);
    ForKeyOfOne(last, infos, k);
    assert k in keys + [last] <==> k in keys || k == last;
  }

  lemma {:induction false} LoadConcat(v: Versions, c: Cache, a: seq<File>, b: File)
    requires forall f :: f in a ==> f.File? && f.cacheVersion == v.cache && f.bitbakeVersion == v.bitbake
    ensures Load(v, c, a + [b]).0 == Load(v, Load(v, c, a).0, [b]).0
    ensures b.File? && b.cacheVersion == v.cache && b.bitbakeVersion == v.bitbake ==>
              Load(v, c, a + [b]) == (LoadEntries(Load(v, c, a).0, b.entries),
                                      |LoadEntries(Load(v, c, a).0, b.entries)|)
    decreases |a|
  {
    if a == [] {
      assert a + [b] == [b] && [b][1..] == [];
    } else {
      assert a[0] in a;
      assert (a + [b])[1..] == a[1..] + [b];
      LoadConcat(v, LoadEntries(c, a[0].entries), a[1..], b);
    }
  }

  /** A file whose two versions are those expected. */
  predicate FileFits(v: Versions, f: File) {
    f.File? && f.cacheVersion == v.cache && f.bitbakeVersion == v.bitbake
  }

  /** At the first file that does not fit loading stops: what the files before it held stays, and 0 is the answer. */
  lemma {:induction false} LoadStops(v: Versions, c: Cache, good: seq<File>, bad: File, rest: seq<File>)
    requires (forall f :: f in good ==> FileFits(v, f)) && !FileFits(v, bad)
    ensures Load(v, c, good + [bad] + rest) == (Load(v, c, good).0, 0)
    decreases |good|
  {
    var files := good + [bad] + rest;
    if good == [] {
      assert files[0] == bad;
    } else {
      assert files[0] == good[0] && files[1..] == good[1..] + [bad] + rest;
      assert good == [good[0]] + good[1..] && FileFits(v, good[0]);
      LoadStops(v, LoadEntries(c, good[0].entries), good[1..], bad, rest);
    }
  }

  /** Without such a file the answer is the number of recipes. */
  lemma {:induction false} LoadCounts(v: Versions, c: Cache, files: seq<File>)
    requires forall f :: f in files ==> FileFits(v, f)
    ensures Load(v, c, files).1 == |Load(v, c, files).0|
    decreases |files|
  {
    if files != [] {
      assert files == [files[0]] + files[1..] && FileFits(v, files[0]);
      LoadCounts(v, LoadEntries(c, files[0].entries), files[1..]);
    }
  }

  /** Entries behind the first that is no recipe information are lost. */
  lemma {:induction false} JunkEnds(c: Cache, entries: seq<Entry>, rest: seq<Entry>)
    requires Clean(entries)
    ensures LoadEntries(c, entries + [Junk] + rest) == LoadEntries(c, entries)
    decreases |entries|
  {
    var all := entries + [Junk] + rest;
    if entries == [] {
      assert all[0] == Junk;
    } else {
      assert entries[0] in entries && all[0] == entries[0] && all[1..] == entries[1..] + [Junk] + rest;
      JunkEnds(Append(c, entries[0].key, entries[0].value), entries[1..], rest);
    }
  }

  lemma SavedLast(v: Versions, c: Cache, keys: seq<string>, classes: seq<string>, last: string)
    requires forall k :: k in keys ==> k in c
    ensures Saved(v, c, keys, classes + [last]) ==
              Saved(v, c, keys, classes) + [File(v.cache, v.bitbake, Entries(c, keys, last))]
  {
  }

  lemma RegroupedLast(infos: seq<Info>, classes: seq<string>, last: string)
    ensures Regrouped(infos, classes + [last]) == Regrouped(infos, classes) + InfosOf(infos, last)
  {
    assert (classes + [last])[..|classes|] == classes;
  }

  /** What a key has after the files of the classes are loaded. */
  ghost predicate ComesBack(v: Versions, c: Cache, keys: seq<string>, classes: seq<string>, k: string)
    requires forall k :: k in keys ==> k in c
  {
    var loaded := Load(v, map[], Saved(v, c, keys, classes));
    && At(loaded.0, k) == Regrouped(At(c, k), classes)
    && (k in loaded.0 <==> Regrouped(At(c, k), classes) != [])
    && loaded.1 == |loaded.0|
  }

  lemma ComesBackMore(v: Versions, c: Cache, keys: seq<string>, classes: seq<string>, last: string, k: string)
    requires Lists(keys, c) && ComesBack(v, c, keys, classes, k)
    ensures ComesBack(v, c, keys, classes + [last], k)
  {
    var files, entries := Saved(v, c, keys, classes), Entries(c, keys, last);
    var before := Load(v, map[], files).0;
    SavedLast(v, c, keys, classes, last);
    LoadConcat(v, map[], files, File(v.cache, v.bitbake, entries));
    RegroupedLast(At(c, k), classes, last);
    CleanFile(c, keys, last);
    LoadedAt(before, entries, k);
    ForKeyOfFile(c, keys, last, k);
    assert ForKey(entries, k) == InfosOf(At(c, k), last);
  }

  /** After saving and loading into an empty cache, every array is regrouped by class, and a key without any is gone. */
  lemma {:induction false} SaveLoad(v: Versions, c: Cache, keys: seq<string>, classes: seq<string>, k: string)
    requires Lists(keys, c)
    ensures ComesBack(v, c, keys, classes, k)
    decreases |classes|
  {
    if classes == [] {
      assert Saved(v, c, keys, classes) == [];
    } else {
      var front, last := classes[..|classes| - 1], classes[|classes| - 1];
      assert classes == front + [last];
      SaveLoad(v, c, keys, front, k);
      ComesBackMore(v, c, keys, front, last, k);
    }
  }

  lemma {:induction false} NothingRegrouped(classes: seq<string>)
    ensures Regrouped([], classes) == []
  {
    if classes != [] {
      NothingRegrouped(classes[..|classes| - 1]);
    }
  }

  lemma SameByAt(c: Cache, d: Cache)
    requires forall k :: k in c <==> k in d
    requires forall k :: k in c ==> At(c, k) == At(d, k)
    ensures c == d
  {
    assert c.Keys == d.Keys;
    forall k | k in c
      ensures c[k] == d[k]
    {
      assert At(c, k) == c[k] && At(d, k) == d[k];
    }
  }

  /** An array that comes back as it was. */
  ghost predicate Stable(c: Cache, k: string, classes: seq<string>)
    requires k in c
  {
    c[k] != [] && Regrouped(c[k], classes) == c[k]
  }

  /** Save then load is the identity exactly when no array is empty and each is grouped by class already. */
  lemma SaveLoadIdentityExactly(v: Versions, c: Cache, keys: seq<string>, classes: seq<string>)
    requires Lists(keys, c)
    ensures Load(v, map[], Saved(v, c, keys, classes)).0 == c <==> forall k :: k in c ==> Stable(c, k, classes)
  {
    var loaded := Load(v, map[], Saved(v, c, keys, classes)).0;
    if forall k :: k in c ==> Stable(c, k, classes) {
      forall k
        ensures k in loaded <==> k in c
        ensures k in c ==> At(loaded, k) == At(c, k)
      {
        SaveLoad(v, c, keys, classes, k);
        NothingRegrouped(classes);
        assert k in c ==> Stable(c, k, classes);
      }
      SameByAt(c, loaded);
    }
    if loaded == c {
      forall k | k in c
        ensures Stable(c, k, classes)
      {
        SaveLoad(v, c, keys, classes, k);
      }
    }
  }

  /** Save then load is the identity on a cache that parsing filled. */
  lemma ParsedComesBack(v: Versions, c: Cache, keys: seq<string>, classes: seq<string>)
    requires Lists(keys, c) && Distinct(classes) && classes != []
    requires forall k :: k in c ==> OnePerClass(c[k], classes)
    ensures Load(v, map[], Saved(v, c, keys, classes)) == (c, |c|)
  {
    forall k | k in c
      ensures Stable(c, k, classes)
    {
      OnePerClassRegrouped(c[k], classes);
    }
    SaveLoadIdentityExactly(v, c, keys, classes);
    SaveLoad(v, c, keys, classes, "");
  }

  /** The array a parse makes: one info per class, in class order. */
  ghost predicate OnePerClass(infos: seq<Info>, classes: seq<string>) {
    |infos| == |classes| && forall i :: 0 <= i < |infos| ==> ClassOf(infos[i]) == classes[i]
  }

  lemma {:induction false} NoneOfClass(infos: seq<Info>, cls: string)
    requires forall i :: i in infos ==> ClassOf(i) != cls
    ensures InfosOf(infos, cls) == []
  {
    if infos != [] {
      NoneOfClass(infos[..|infos| - 1], cls);
    }
  }

  lemma {:induction false} RegroupMore(infos: seq<Info>, last: Info, classes: seq<string>)
    requires ClassOf(last) !in classes
    ensures Regrouped(infos + [last], classes) == Regrouped(infos, classes)
  {
    if classes != [] {
      RegroupMore(infos, last, classes[..|classes| - 1]);
      assert (infos + [last])[..|infos|] == infos;
    }
  }

  lemma InfosOfLast(infos: seq<Info>, last: Info, cls: string)
    ensures InfosOf(infos + [last], cls) == InfosOf(infos, cls) + if ClassOf(last) == cls then [last] else []
  {
    assert (infos + [last])[..|infos|] == infos;
  }

  lemma OnePerClassFront(infos: seq<Info>, last: Info, classes: seq<string>, cls: string)
    requires Distinct(classes + [cls]) && OnePerClass(infos + [last], classes + [cls])
    ensures Distinct(classes) && cls !in classes && OnePerClass(infos, classes) && ClassOf(last) == cls
    ensures forall i :: i in infos ==> ClassOf(i) != cls
  {
    DistinctFront(classes, cls);
    var all, names := infos + [last], classes + [cls];
    assert ClassOf(all[|infos|]) == names[|infos|];
    forall i | 0 <= i < |infos|
      ensures ClassOf(infos[i]) == classes[i]
    {
      assert all[i] == infos[i] && names[i] == classes[i];
    }
  }

  /** An array as a parse makes it comes back in the same order. */
  lemma {:induction false} OnePerClassRegrouped(infos: seq<Info>, classes: seq<string>)
    requires Distinct(classes) && OnePerClass(infos, classes)
    ensures Regrouped(infos, classes) == infos
    decreases |infos|
  {
    if infos != [] {
      var front, last := infos[..|infos| - 1], infos[|infos| - 1];
      var before, cls := classes[..|classes| - 1], classes[|classes| - 1];
      assert infos == front + [last] && classes == before + [cls];
      OnePerClassFront(front, last, before, cls);
      OnePerClassRegrouped(front, before);
      RegroupMore(front, last, before);
      NoneOfClass(front, cls);
      InfosOfLast(front, last, cls);
      RegroupedLast(infos, before, cls);
    }
  }

  ghost predicate Lacks(infos: seq<Info>, classes: seq<string>) {
    exists cls :: cls in classes && InfosOf(infos, cls) == []
  }

  /** An array with at most one info of each class comes back with one per class exactly when it lacks none. */
  lemma {:induction false} ShortExactly(infos: seq<Info>, classes: seq<string>)
    requires forall cls :: cls in classes ==> |InfosOf(infos, cls)| <= 1
    ensures |Regrouped(infos, classes)| <= |classes|
    ensures |Regrouped(infos, classes)| < |classes| <==> Lacks(infos, classes)
    decreases |classes|
  {
    if classes != [] {
      var front, last := classes[..|classes| - 1], classes[|classes| - 1];
      assert classes == front + [last];
      ShortExactly(infos, front);
      RegroupedLast(infos, front, last);
      LacksMore(infos, front, last);
    }
  }

  lemma LacksMore(infos: seq<Info>, classes: seq<string>, last: string)
    ensures Lacks(infos, classes + [last]) <==> Lacks(infos, classes) || InfosOf(infos, last) == []
  {
    if Lacks(infos, classes) {
      var cls :| cls in classes && InfosOf(infos, cls) == [];
      assert cls in classes + [last];
    }
    if InfosOf(infos, last) == [] {
      assert last in classes + [last];
    }
  }

  // ---- the loops ----

  class Store {
    const versions: Versions
    const classes: seq<string>
    var dependsCache: Cache

    constructor (versions: Versions, classes: seq<string>)
      ensures this.versions == versions && this.classes == classes && dependsCache == map[]
    {
      this.versions, this.classes, dependsCache := versions, classes, map[];
    }

    /** Writes one file per class; keys is the order in which the dictionary is iterated. */
    method Sync(keys: seq<string>) returns (files: seq<File>)
      requires forall k :: k in keys ==> k in dependsCache
      ensures files == Saved(versions, dependsCache, keys, classes)
    {
      files := [];
      for n := 0 to |classes|
        invariant files == Saved(versions, dependsCache, keys, classes[..n])
      {
        var entries := WriteClass(keys, classes[n]);
        files := files + [File(versions.cache, versions.bitbake, entries)];
      }
      assert classes[..|classes|] == classes;
    }

    method WriteClass(keys: seq<string>, cls: string) returns (entries: seq<Entry>)
      requires forall k :: k in keys ==> k in dependsCache
      ensures entries == Entries(dependsCache, keys, cls)
    {
      entries := [];
      for n := 0 to |keys|
        invariant entries == Entries(dependsCache, keys[..n], cls)
      {
        var more := WriteInfos(keys[n], dependsCache[keys[n]], cls);
        EntriesLast(dependsCache, keys[..n], keys[n], cls);
        assert keys[..n + 1] == keys[..n] + [keys[n]];
        entries := entries + more;
      }
      assert keys[..|keys|] == keys;
    }

    method WriteInfos(key: string, infos: seq<Info>, cls: string) returns (entries: seq<Entry>)
      ensures entries == EntriesOf(key, InfosOf(infos, cls))
    {
      entries := [];
      for n := 0 to |infos|
        invariant entries == EntriesOf(key, InfosOf(infos[..n], cls))
      {
        InfosOfLast(infos[..n], infos[n], cls);
        assert infos[..n + 1] == infos[..n] + [infos[n]];
        if ClassOf(infos[n]) == cls {
          entries := entries + [Entry(key, infos[n])];
        }
      }
      assert infos[..|infos|] == infos;
    }

    method LoadCachefile(files: seq<File>) returns (size: nat)
      modifies this
      ensures (dependsCache, size) == Load(versions, old(dependsCache), files)
    {
      for n := 0 to |files|
        invariant Load(versions, old(dependsCache), files) == Load(versions, dependsCache, files[n..])
      {
        assert files[n..][0] == files[n] && files[n..][1..] == files[n + 1..];
        if files[n].Unreadable? || files[n].cacheVersion != versions.cache
           || files[n].bitbakeVersion != versions.bitbake {
          return 0;
        }
        ReadEntries(files[n].entries);
      }
      return |dependsCache|;
    }

    method ReadEntries(entries: seq<Entry>)
      modifies this
      ensures dependsCache == LoadEntries(old(dependsCache), entries)
    {
      for n := 0 to |entries|
        invariant LoadEntries(old(dependsCache), entries) == LoadEntries(dependsCache, entries[n..])
      {
        assert entries[n..][0] == entries[n] && entries[n..][1..] == entries[n + 1..];
        if entries[n].Junk? {
          return;
        }
        var key, value := entries[n].key, entries[n].value;
        ghost var was := dependsCache;
        if key in dependsCache {
          dependsCache := dependsCache[key := dependsCache[key] + [value]];
        } else {
          dependsCache := dependsCache[key := [value]];
        }
        assert dependsCache == Append(was, key, value) by {
          assert [] + [value] == [value];
        }
      }
    }
  }

  /** Writing the files with one object and loading them with a new one. */
  method RestartKeepsTheCache(versions: Versions, classes: seq<string>, cache: Cache,
                              keys: seq<string>) returns (back: Cache, size: nat)
    requires Lists(keys, cache) && Distinct(classes) && classes != []
    requires forall k :: k in cache ==> OnePerClass(cache[k], classes)
    ensures back == cache && size == |cache|
  {
    var saver := new Store(versions, classes);
    saver.dependsCache := cache;
    var files := saver.Sync(keys);
    var loader := new Store(versions, classes);
    size := loader.LoadCachefile(files);
    back := loader.dependsCache;
    ParsedComesBack(versions, cache, keys, classes);
  }
}
