/**
 The two users of the shared cache whose answers must not depend on it: the code parser, which caches
 what a piece of code refers to, and the file checksum cache.
 */
module CodeParser {
  import opened Sequences
  import opened MergeData
  import opened MergeProtocol

  /** What parsing finds out. */
  datatype Info = Info(refs: set<string>, execs: set<string>, contains: map<string, set<string>>, extra: Option<string>)

  /** A cache line: of Python code at index 0, of shell code at index 1. */
  datatype Line = Python(info: Info) | Shell(execs: set<string>)

  /**
   Parsing, as a function of the cache key, with the variables executed, which are not cached; and the hash
   functions that key the two tables of lines.
   */
  datatype World = World(parsePython: string -> Info, varExecs: string -> set<string>,
                         parseShell: string -> set<string>,
                         hash: string -> string, setHash: set<string> -> int, lineHash: Line -> int)

  /** No two sets and no two lines have one hash. */
  ghost predicate CollisionFree(w: World) {
    && (forall a, b :: w.setHash(a) == w.setHash(b) ==> a == b)
    && (forall a, b :: w.lineHash(a) == w.lineHash(b) ==> a == b)
  }

  /** The entry is what parsing would give. */
  ghost predicate Uncached(w: World, j: nat, key: string, line: Line) {
    (j == 0 && line == Python(w.parsePython(key))) || (j == 1 && line == Shell(w.parseShell(key)))
  }

  ghost function SoundLine(w: World): (nat, string, Line) -> bool {
    (j: nat, k: string, v: Line) => Uncached(w, j, k, v)
  }

  /** What a fresh parser holds afterwards; `var_execs` is filled by parsing only. */
  datatype Outcome = Skipped | NotCached | Parsed(info: Info, varExecs: set<string>)

  /** What a fresh parser holds after parsing, without any cache. */
  function UncachedOutcome(w: World, key: string): Outcome {
    Parsed(w.parsePython(key), w.varExecs(key))
  }

  /** One process: the merged cache it loaded, what it found itself, and the tables of interned sets and lines. */
  class CodeParserCache {
    const w: World
    var cachedata: Data<Line>
    var extras: Data<Line>
    var setcache: map<int, set<string>>
    var lines: map<int, Line>

    ghost predicate Valid()
      reads this
    {
      && CollisionFree(w)
      && |cachedata| == 2 && |extras| == 2
      && SoundData(cachedata, SoundLine(w)) && SoundData(extras, SoundLine(w))
      && (forall h :: h in setcache ==> w.setHash(setcache[h]) == h)
      && (forall h :: h in lines ==> w.lineHash(lines[h]) == h)
    }

    constructor (w: World, data: Data<Line>)
      requires CollisionFree(w) && |data| == 2 && SoundData(data, SoundLine(w))
      ensures Valid() && this.w == w && cachedata == data && extras == [map[], map[]]
    {
      this.w, cachedata, extras, setcache, lines := w, data, [map[], map[]], map[], map[];
    }

    /** `internSet` */
    method InternSet(items: set<string>) returns (s: set<string>)
      requires Valid()
      modifies this`setcache
      ensures Valid() && s == items
    {
      var h := w.setHash(items);
      if h in setcache {
        return setcache[h];
      }
      setcache := setcache[h := items];
      s := items;
    }

    /** The `contains` part of a cache line, set by set. */
    method InternContains(contains: map<string, set<string>>) returns (r: map<string, set<string>>)
      requires Valid()
      modifies this`setcache
      ensures Valid() && r == contains
    {
      r := map[];
      var todo := contains.Keys;
      while todo != {}
        invariant Valid() && todo <= contains.Keys
        invariant r.Keys == contains.Keys - todo && forall c :: c in r ==> r[c] == contains[c]
        decreases todo
      {
        ghost var some := SomeElement(todo);
        var c :| c in todo;
        var s := InternSet(contains[c]);
        r := r[c := s];
        todo := todo - {c};
      }
    }

    method NewLine(line: Line) returns (r: Line)
      requires Valid()
      modifies this`lines
      ensures Valid() && r == line
    {
      var h := w.lineHash(line);
      if h in lines {
        return lines[h];
      }
      lines := lines[h := line];
      r := line;
    }

    /** `newPythonCacheLine` */
    method NewPythonCacheLine(info: Info) returns (r: Line)
      requires Valid()
      modifies this`setcache, this`lines
      ensures Valid() && r == Python(info)
    {
      var refs := InternSet(info.refs);
      var execs := InternSet(info.execs);
      var contains := InternContains(info.contains);
      r := NewLine(Python(Info(refs, execs, contains, info.extra)));
    }

    /** `parse_python` of a fresh parser; node is absent where only a fixed hash is known. */
    method ParsePython(node: Option<string>, fixedhash: Option<string>) returns (r: Outcome)
      requires Valid()
      modifies this`extras, this`setcache, this`lines
      ensures Valid() && cachedata == old(cachedata)
      ensures fixedhash in {None, Some("")} && (node.None? || Blank(node.value)) ==> r == Skipped
      ensures fixedhash !in {None, Some("")} || (node.Some? && !Blank(node.value)) ==>
                var key := PythonKey(w, node, fixedhash);
                if node in {None, Some("")} && !Holds(cachedata, 0, key) && !Holds(old(extras), 0, key)
                then r == NotCached
                else
                  && r.Parsed? && r.info == w.parsePython(key) && (Holds(cachedata, 0, key) || Holds(extras, 0, key))
                  && (r == UncachedOutcome(w, key)
                      <==> (Holds(cachedata, 0, key) || Holds(old(extras), 0, key) ==> w.varExecs(key) == {}))
      ensures forall k :: Holds(old(extras), 0, k) ==> Holds(extras, 0, k)
    {
      if !Given(fixedhash) && (node.None? || Blank(node.value)) {
        return Skipped;
      }
      var key := PythonKey(w, node, fixedhash);
      if key in cachedata[0] {
        assert Holds(cachedata, 0, key);
        return Parsed(cachedata[0][key].info, {});
      }
      if key in extras[0] {
        assert Holds(extras, 0, key);
        return Parsed(extras[0][key].info, {});
      }
      if NoText(node) {
        return NotCached;
      }
      var info := w.parsePython(key);
      var line := NewPythonCacheLine(info);
      ghost var before := extras;
      extras := extras[0 := extras[0][key := line]];
      PutSound(w, before, 0, key, line);
      r := Parsed(info, w.varExecs(key));
    }

    /** `parse_shell` of a fresh parser. */
    method ParseShell(value: string) returns (execs: set<string>)
      requires Valid()
      modifies this`extras, this`setcache, this`lines
      ensures Valid() && cachedata == old(cachedata)
      ensures execs == w.parseShell(w.hash(value))
      ensures Holds(cachedata, 1, w.hash(value)) || Holds(extras, 1, w.hash(value))
    {
      var key := w.hash(value);
      if key in cachedata[1] {
        assert Holds(cachedata, 1, key);
        return cachedata[1][key].execs;
      }
      if key in extras[1] {
        assert Holds(extras, 1, key);
        return extras[1][key].execs;
      }
      execs := w.parseShell(key);
      var interned := InternSet(execs);
      var line := NewLine(Shell(interned));
      ghost var before := extras;
      extras := extras[1 := extras[1][key := line]];
      PutSound(w, before, 1, key, line);
    }
  }

  /** A piece of code that executes a variable: the answer from a cache is not the uncached one. */
  lemma CachedLacksExecs(w: World, key: string)
    requires w.varExecs(key) == {"FOO"}
    ensures Parsed(w.parsePython(key), {}) != UncachedOutcome(w, key)
  {
    assert "FOO" in w.varExecs(key);
  }

  /** Code of nothing but white space is what is left when it is stripped. */
  lemma BlankExactly(s: string)
    ensures Blank(s) <==> !exists a, c, b :: s == a + [c] + b && !IsSpace(c)
  {
    if c :| c in s && !IsSpace(c) {
      var i :| 0 <= i < |s| && s[i] == c;
      assert s == s[..i] + [c] + s[i + 1..];
    }
    if a, c, b :| s == a + [c] + b && !IsSpace(c) {
      assert s[|a|] == c;
    }
  }

  predicate Blank(s: string) {
    forall c :: c in s ==> IsSpace(c)
  }

  predicate NoText(node: Option<string>) {
    node.None? || node.value == ""
  }

  /** A hash that is empty counts as none. */
  predicate Given(fixedhash: Option<string>) {
    fixedhash.Some? && fixedhash.value != ""
  }

  /** A hash that is given decides alone; without one, code has a key of its own as far as hashes do not collide. */
  lemma KeyDecides(w: World, node: Option<string>, other: Option<string>, fixedhash: Option<string>)
    requires fixedhash !in {None, Some("")} || (node.Some? && other.Some?)
    ensures fixedhash !in {None, Some("")} ==>
              PythonKey(w, node, fixedhash) == PythonKey(w, other, fixedhash) == fixedhash.value
    ensures fixedhash in {None, Some("")} && (forall a, b :: w.hash(a) == w.hash(b) ==> a == b) ==>
              (PythonKey(w, node, fixedhash) == PythonKey(w, other, fixedhash) <==> node == other)
  {
  }

  function PythonKey(w: World, node: Option<string>, fixedhash: Option<string>): string
    requires Given(fixedhash) || node.Some?
  {
    if Given(fixedhash) then fixedhash.value else w.hash(node.value)
  }

  lemma PutSound(w: World, d: Data<Line>, j: nat, key: string, line: Line)
    requires j < |d| && SoundData(d, SoundLine(w)) && Uncached(w, j, key, line)
    ensures SoundData(d[j := d[j][key := line]], SoundLine(w))
  {
    var d' := d[j := d[j][key := line]];
    forall i: nat, k: string | Holds(d', i, k)
      ensures SoundLine(w)(i, k, d'[i][k])
    {
      assert Holds(d, i, k) || (i == j && k == key);
    }
  }

  /**
   After any interleaving of processes that saved what parsers found, and any merges of it in any order, a parser
   that loads the merged file finds in it only what parsing would give.
   */
  lemma LoadedIsUncached(w: World, s: State<Line>, run: seq<Action<Line>>, j: nat, key: string)
    requires Inv(s) && ValidRun(KeepFirst, s, run) && Sound(s, SoundLine(w))
    requires forall a :: a in run && a.Start? ==> SoundData(a.extras, SoundLine(w))
    requires Holds(Run(KeepFirst, s, run).disk, j, key)
    ensures Uncached(w, j, key, Run(KeepFirst, s, run).disk[j][key])
  {
    RunSound(KeepFirst, s, run, SoundLine(w));
  }

  /** What save_merge reads: lines for as many tables as there are, each what parsing would give. */
  ghost predicate SoundListed(w: World, n: nat, listed: seq<Option<(Data<Line>, nat)>>, version: nat) {
    forall f :: f in listed && Current(f, version) ==> |f.value.0| == n && SoundData(f.value.0, SoundLine(w))
  }

  ghost predicate ListedHolds(listed: seq<Option<(Data<Line>, nat)>>, version: nat, j: nat, k: string) {
    exists f :: f in listed && Current(f, version) && Holds(f.value.0, j, k)
  }

  lemma MergedSound(w: World, p: Policy, a: Data<Line>, b: Data<Line>)
    requires |a| == |b| && SoundData(a, SoundLine(w)) && SoundData(b, SoundLine(w))
    ensures SoundData(Merge(p, a, b), SoundLine(w))
  {
    var r := Merge(p, a, b);
    forall j: nat, k: string | Holds(r, j, k)
      ensures SoundLine(w)(j, k, r[j][k])
    {
      MergeKeeps(p, a, b, j, k);
    }
  }

  /** Merging listed files gives the keys of all of them, with what parsing would give. */
  lemma {:induction false} MergeListedHolds(w: World, p: Policy, d: Data<Line>,
                                            listed: seq<Option<(Data<Line>, nat)>>, version: nat, j: nat, k: string)
    requires SoundData(d, SoundLine(w)) && SoundListed(w, |d|, listed, version)
    ensures SoundData(MergeListed(p, d, listed, version), SoundLine(w))
    ensures Holds(MergeListed(p, d, listed, version), j, k) <==> Holds(d, j, k) || ListedHolds(listed, version, j, k)
    decreases |listed|
  {
    if listed != [] {
      var front, last := listed[..|listed| - 1], listed[|listed| - 1];
      assert listed == front + [last];
      MergeListedHolds(w, p, d, front, version, j, k);
      ListedLast(front, last, version, j, k);
      if Current(last, version) {
        MergedSound(w, p, MergeListed(p, d, front, version), last.value.0);
        MergeKeeps(p, MergeListed(p, d, front, version), last.value.0, j, k);
      }
    }
  }

  lemma ListedLast(front: seq<Option<(Data<Line>, nat)>>, last: Option<(Data<Line>, nat)>, version: nat, j: nat,
                   k: string)
    ensures ListedHolds(front + [last], version, j, k) <==>
            ListedHolds(front, version, j, k) || (Current(last, version) && Holds(last.value.0, j, k))
  {
    assert forall f :: f in front + [last] <==> f in front || f == last;
  }

  /** Equal keys carry equal values, so neither the order of the files merged nor repetitions matter. */
  lemma MergeOrderIrrelevant(w: World, p: Policy, d: Data<Line>, listed: seq<Option<(Data<Line>, nat)>>,
                             listed': seq<Option<(Data<Line>, nat)>>, version: nat)
    requires SoundData(d, SoundLine(w)) && SoundListed(w, |d|, listed, version)
    requires forall f :: f in listed <==> f in listed'
    ensures MergeListed(p, d, listed, version) == MergeListed(p, d, listed', version)
  {
    var x, y := MergeListed(p, d, listed, version), MergeListed(p, d, listed', version);
    forall j | 0 <= j < |d|
      ensures x[j] == y[j]
    {
      forall k
        ensures (k in x[j] <==> k in y[j]) && (k in x[j] ==> x[j][k] == y[j][k])
      {
        MergeListedHolds(w, p, d, listed, version, j, k);
        MergeListedHolds(w, p, d, listed', version, j, k);
        assert ListedHolds(listed, version, j, k) <==> ListedHolds(listed', version, j, k);
        SameValue(w, x, y, j, k);
      }
      assert x[j].Keys == y[j].Keys;
    }
  }

  lemma SameValue(w: World, a: Data<Line>, b: Data<Line>, j: nat, k: string)
    requires SoundData(a, SoundLine(w)) && SoundData(b, SoundLine(w))
    ensures Holds(a, j, k) && Holds(b, j, k) ==> a[j][k] == b[j][k]
  {
    if Holds(a, j, k) && Holds(b, j, k) {
      assert Uncached(w, j, k, a[j][k]) && Uncached(w, j, k, b[j][k]);
    }
  }
}

module FileChecksums {
  import opened Sequences
  import opened Paths
  import opened MergeData
  import opened MergeProtocol

  datatype Entry = Entry(mtime: int, hash: string)

  /** Files do not change during a run, and path and time of change determine the content. */
  datatype Disk = Disk(mtime: string -> Option<int>, md5: (string, int) -> string)

  ghost function SoundEntry(d: Disk): (nat, string, Entry) -> bool {
    (j: nat, f: string, e: Entry) => e.hash == d.md5(f, e.mtime)
  }

  class FileChecksumCache {
    const disk: Disk
    var mtimes: map<string, int>
    var cachedata: Data<Entry>
    var extras: Data<Entry>

    ghost predicate Valid()
      reads this
    {
      && |cachedata| == 1 && |extras| == 1
      && SoundData(cachedata, SoundEntry(disk)) && SoundData(extras, SoundEntry(disk))
      && forall f :: f in mtimes ==> disk.mtime(f) == Some(mtimes[f])
    }

    constructor (disk: Disk, data: Data<Entry>)
      requires |data| == 1 && SoundData(data, SoundEntry(disk))
      ensures Valid() && this.disk == disk && cachedata == data
    {
      this.disk, mtimes, cachedata, extras := disk, map[], data, [map[]];
    }

    /** The entry is in the merged cache, or will be saved. */
    ghost predicate Remembered(f: string, e: Entry)
      reads this
    {
      || (Holds(cachedata, 0, f) && cachedata[0][f] == e)
      || (Holds(extras, 0, f) && extras[0][f] == e)
    }

    static predicate SameExtra(before: Data<Entry>, after: Data<Entry>, f: string) {
      (Holds(before, 0, f) <==> Holds(after, 0, f)) && (Holds(before, 0, f) ==> before[0][f] == after[0][f])
    }

    /** `cached_mtime`; None stands for the OSError. */
    method CachedMtime(f: string) returns (m: Option<int>)
      requires Valid()
      modifies this`mtimes
      ensures Valid() && m == disk.mtime(f)
    {
      if f !in mtimes {
        var st := disk.mtime(f);
        if st.None? {
          return None;
        }
        mtimes := mtimes[f := st.value];
      }
      m := Some(mtimes[f]);
    }

    /** `get_checksum`: the hash of the current content, wherever it comes from. */
    method GetChecksum(path: string) returns (r: Option<string>)
      requires Valid()
      modifies this`mtimes, this`extras
      ensures Valid() && cachedata == old(cachedata)
      ensures var f := NormPath(path);
              && r == (if disk.mtime(f).None? then None else Some(disk.md5(f, disk.mtime(f).value)))
              && (r.Some? ==> Remembered(f, Entry(disk.mtime(f).value, r.value)))
      ensures forall f :: f != NormPath(path) ==> SameExtra(old(extras), extras, f)
    {
      var f := NormPath(path);
      r := Checksum(f);
    }

    method Checksum(f: string) returns (r: Option<string>)
      requires Valid()
      modifies this`mtimes, this`extras
      ensures Valid() && cachedata == old(cachedata)
      ensures r == if disk.mtime(f).None? then None else Some(disk.md5(f, disk.mtime(f).value))
      ensures r.Some? ==> Remembered(f, Entry(disk.mtime(f).value, r.value))
      ensures forall k :: k != f ==> SameExtra(old(extras), extras, k)
    {
      var cmtime := CachedMtime(f);
      if cmtime.None? {
        return None;
      }
      if f in cachedata[0] && cachedata[0][f].mtime == cmtime.value {
        assert Holds(cachedata, 0, f);
        return Some(cachedata[0][f].hash);
      }
      var hash := disk.md5(f, cmtime.value);
      ghost var before := extras;
      extras := extras[0 := extras[0][f := Entry(cmtime.value, hash)]];
      forall j: nat, k: string | Holds(extras, j, k)
        ensures SoundEntry(disk)(j, k, extras[j][k])
      {
        assert k != f ==> Holds(before, j, k);
      }
      r := Some(hash);
    }
  }

  /** The guard of `merge_data` asks a list for a key of its dictionary, so every entry of the source is taken. */
  function MergeChecksums(dest: map<string, Entry>, source: map<string, Entry>): map<string, Entry> {
    MergeMap(Overwrite, dest, source)
  }

  /** What it is written to do: keep the entry with the later time. */
  function NewestWins(dest: map<string, Entry>, source: map<string, Entry>): map<string, Entry> {
    map f | f in dest.Keys + source.Keys ::
      if f in source && (f !in dest || source[f].mtime > dest[f].mtime) then source[f] else dest[f]
  }

  /** The two agree exactly when the source is never older where both have different entries. */
  lemma NewestWinsExactly(dest: map<string, Entry>, source: map<string, Entry>)
    ensures MergeChecksums(dest, source) == NewestWins(dest, source)
       <==> forall f :: f in dest && f in source ==> source[f].mtime > dest[f].mtime || source[f] == dest[f]
  {
    var a, b := MergeChecksums(dest, source), NewestWins(dest, source);
    assert a.Keys == b.Keys == dest.Keys + source.Keys;
    if forall f :: f in dest && f in source ==> source[f].mtime > dest[f].mtime || source[f] == dest[f] {
      assert forall f :: f in a ==> a[f] == b[f];
    } else {
      var f :| f in dest && f in source && !(source[f].mtime > dest[f].mtime || source[f] == dest[f]);
      assert a[f] != b[f];
    }
  }

  /** An older entry replaces a newer one. */
  lemma OlderReplacesNewer()
    ensures MergeChecksums(map["f" := Entry(2, "new")], map["f" := Entry(1, "old")]) == map["f" := Entry(1, "old")]
    ensures NewestWins(map["f" := Entry(2, "new")], map["f" := Entry(1, "old")]) == map["f" := Entry(2, "new")]
  {
  }

  /** Whichever entries merging keeps, across any run of processes, what is loaded stays sound. */
  lemma LoadedIsSound(d: Disk, s: State<Entry>, run: seq<Action<Entry>>, f: string)
    requires Inv(s) && ValidRun(Overwrite, s, run) && Sound(s, SoundEntry(d))
    requires forall a :: a in run && a.Start? ==> SoundData(a.extras, SoundEntry(d))
    requires Holds(Run(Overwrite, s, run).disk, 0, f)
    ensures var e := Run(Overwrite, s, run).disk[0][f]; e.hash == d.md5(f, e.mtime)
  {
    RunSound(Overwrite, s, run, SoundEntry(d));
    assert SoundEntry(d)(0, f, Run(Overwrite, s, run).disk[0][f]);
  }
}
