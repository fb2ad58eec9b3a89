/**
 Moving an SDK to its installation directory: patching the interpreter path and the path sections inside ELF files
 of fixed size. First what the program does to the bytes of a file, then what that amounts to, last the program.
 */
module Relocation {
  import opened Sequences
  import opened Patching

  /** The new prefix and interpreter, and whether that interpreter is a 64-bit one. */
  datatype Config = Config(swap: Swap, dlPath: Bytes, wide: bool)

  datatype Elf = Elf(big: bool, wide: bool, phoff: nat, phentsize: nat, phnum: nat,
                     shoff: nat, shentsize: nat, shnum: nat, shstrndx: nat)

  datatype Program = Program(kind: nat, offset: nat, filesz: nat)
  datatype Section = Section(name: nat, kind: nat, offset: nat, size: nat)

  /** Failed: the interpreter did not fit, reported at the end; Exit: the program stopped; Raised: an exception. */
  datatype Status = Done | Failed | Exit | Raised

  // ---- headers ----

  function Num(d: Bytes, big: bool): nat
    decreases |d|
  {
    if |d| == 0 then 0
    else if big then Num(d[..|d| - 1], big) * 256 + d[|d| - 1]
    else d[0] + 256 * Num(d[1..], big)
  }

  function Field(d: Bytes, off: nat, n: nat, big: bool): nat
    requires off + n <= |d|
  {
    Num(d[off..off + n], big)
  }

  /** Some(true) for a 64-bit file, None for no ELF file; only the first magic byte is looked at. */
  function Arch(b: Bytes): Option<bool>
    requires |b| >= 64
  {
    if b[0] != 0x7f || b[4] == 0 then None
    else if b[4] == 1 then Some(false)
    else if b[4] == 2 then Some(true)
    else None
  }

  function ReadElf(b: Bytes): Elf
    requires |b| >= 64
  {
    var h := b[..64];
    var big := h[5] != 1;
    if h[4] == 2 then
      Elf(big, true, Field(h, 32, 8, big), Field(h, 54, 2, big), Field(h, 56, 2, big),
          Field(h, 40, 8, big), Field(h, 58, 2, big), Field(h, 60, 2, big), Field(h, 62, 2, big))
    else
      Elf(big, false, Field(h, 28, 4, big), Field(h, 42, 2, big), Field(h, 44, 2, big),
          Field(h, 32, 4, big), Field(h, 46, 2, big), Field(h, 48, 2, big), Field(h, 50, 2, big))
  }

  /** None when the entry has not the size that unpacking asks for. */
  function ProgramOf(d: Bytes, elf: Elf): Option<Program> {
    if |d| != (if elf.wide then 56 else 32) then None
    else if elf.wide then Some(Program(Field(d, 0, 4, elf.big), Field(d, 8, 8, elf.big), Field(d, 32, 8, elf.big)))
    else Some(Program(Field(d, 0, 4, elf.big), Field(d, 4, 4, elf.big), Field(d, 16, 4, elf.big)))
  }

  function ProgramAt(b: Bytes, elf: Elf, i: nat): Option<Program> {
    ProgramOf(ReadAt(b, elf.phoff + i * elf.phentsize, elf.phentsize), elf)
  }

  function SectionOf(d: Bytes, elf: Elf): Option<Section> {
    if |d| != (if elf.wide then 64 else 40) then None
    else if elf.wide then
      Some(Section(Field(d, 0, 4, elf.big), Field(d, 4, 4, elf.big), Field(d, 24, 8, elf.big),
                   Field(d, 32, 8, elf.big)))
    else
      Some(Section(Field(d, 0, 4, elf.big), Field(d, 4, 4, elf.big), Field(d, 16, 4, elf.big),
                   Field(d, 20, 4, elf.big)))
  }

  function SectionAt(b: Bytes, elf: Elf, i: nat): Option<Section> {
    SectionOf(ReadAt(b, elf.shoff + i * elf.shentsize, elf.shentsize), elf)
  }

  function FindZero(tab: Bytes, at: nat): Option<nat>
    decreases |tab| - at
  {
    if at >= |tab| then None else if tab[at] == 0 then Some(at) else FindZero(tab, at + 1)
  }

  /** The name at an offset; without an ending zero the slice drops the last byte of the table. */
  function Name(tab: Bytes, at: nat): Bytes {
    var end := match FindZero(tab, at) case Some(z) => z case None => |tab| - 1;
    if at <= end <= |tab| then tab[at..end] else []
  }

  datatype Role = SysDirs | SysDirsLen | LdSoCache | GccRelocPrefix | Other

  /** Only sections of type SHT_PROGBITS are looked at. */
  function RoleOf(s: Section, tab: Bytes): Role {
    var name := Name(tab, s.name);
    if s.kind != 1 then Other
    else if name == Ascii(".sysdirs") then SysDirs
    else if name == Ascii(".sysdirslen") then SysDirsLen
    else if name == Ascii(".ldsocache") then LdSoCache
    else if name == Ascii(".gccrelocprefix") then GccRelocPrefix
    else Other
  }

  // ---- the interpreter ----

  datatype Interp = NoInterp | Malformed | Interp(offset: nat, filesz: nat)

  /** The first entry of type PT_INTERP. */
  function FindInterp(b: Bytes, elf: Elf, i: nat): Interp
    decreases elf.phnum - i
  {
    if i >= elf.phnum then NoInterp
    else match ProgramAt(b, elf, i)
      case None => Malformed
      case Some(p) => if p.kind == 3 then Interp(p.offset, p.filesz) else FindInterp(b, elf, i + 1)
  }

  /** An interpreter of the host system, which stays. */
  predicate HostPath(fname: Bytes) {
    || Ascii("/lib/") <= fname || Ascii("/lib64/") <= fname || Ascii("/lib32/") <= fname
    || Ascii("/usr/lib32/") <= fname || Ascii("/usr/lib64/") <= fname
  }

  function ChangeInterpreter(c: Config, b: Bytes, elf: Elf): (Bytes, Status) {
    match FindInterp(b, elf, 0)
    case NoInterp => (b, Done)
    case Malformed => (b, Raised)
    case Interp(offset, filesz) =>
      if HostPath(ReadAt(b, offset, 11)) || filesz == 0 then (b, Done)
      else if |c.dlPath| >= filesz then (b, Failed)
      else (WriteAt(b, offset, Padded(c.dlPath, filesz)), Done)
  }

  // ---- the sections ----

  datatype Dirs = Dirs(text: Bytes, offset: nat, size: nat)

  /** What the loop over the sections remembers for its end. */
  datatype Found = Found(dirs: Option<Dirs>, lens: Option<nat>)

  /** One block; false when its text does not fit. */
  function BlockStep(c: Config, b: Bytes, at: nat): (Bytes, bool) {
    var path := StripRight(Sub(c.swap, ReadAt(b, at, BLOCK)), 0);
    if |path| >= BLOCK then (b, false) else (WriteAt(b, at, Padded(path, BLOCK)), true)
  }

  /** Block after block from `at`, with `left` bytes of the section to go. */
  function Blocks(c: Config, b: Bytes, at: nat, left: nat): (Bytes, bool)
    decreases left
  {
    if left < BLOCK then (b, true)
    else
      var (b', ok) := BlockStep(c, b, at);
      if ok then Blocks(c, b', at + BLOCK, left - BLOCK) else (b', false)
  }

  function SectionStep(c: Config, b: Bytes, s: Section, role: Role, found: Found): (Bytes, Found, Status) {
    match role
    case SysDirs => (b, found.(dirs := Some(Dirs(ReadAt(b, s.offset, s.size), s.offset, s.size))), Done)
    case SysDirsLen => (b, found.(lens := Some(s.offset)), Done)
    case LdSoCache =>
      var path := StripRight(Sub(c.swap, ReadAt(b, s.offset, s.size)), 0);
      if |path| >= s.size then (b, found, Exit) else (WriteAt(b, s.offset, Padded(path, s.size)), found, Done)
    case GccRelocPrefix =>
      var (b', ok) := Blocks(c, b, s.offset, s.size);
      (b', found, if ok then Done else Exit)
    case Other => (b, found, Done)
  }

  function SectionLoop(c: Config, b: Bytes, elf: Elf, tab: Bytes, i: nat, found: Found): (Bytes, Found, Status)
    decreases elf.shnum - i
  {
    if i >= elf.shnum then (b, found, Done)
    else match SectionAt(b, elf, i)
      case None => (b, found, Raised)
      case Some(s) =>
        var (b', found', status) := SectionStep(c, b, s, RoleOf(s, tab), found);
        if status != Done then (b', found', status) else SectionLoop(c, b', elf, tab, i + 1, found')
  }

  function Word(elf: Elf): nat {
    if elf.wide then 8 else 4
  }

  /** The directories and their lengths written back; the lengths' section may be missing, which raises. */
  function WriteDirs(c: Config, b: Bytes, elf: Elf, found: Found): (Bytes, Status) {
    if found.dirs.None? then (b, Done)
    else if found.lens.None? then (b, Raised)
    else
      var d := found.dirs.value;
      var paths := SubAll(c.swap, PathsOf(d.text));
      (WriteAt(WriteAt(b, d.offset, Padded(Terminated(paths), d.size)), found.lens.value,
               Lengths(paths, Word(elf))), Done)
  }

  function ChangeDlSysdirs(c: Config, b: Bytes, elf: Elf): (Bytes, Status) {
    match SectionAt(b, elf, elf.shstrndx)
    case None => (b, Raised)
    case Some(strtab) =>
      var (b', found, status) := SectionLoop(c, b, elf, ReadAt(b, strtab.offset, strtab.size), 0, Found(None, None));
      if status != Done then (b', status) else WriteDirs(c, b', elf, found)
  }

  /** One file of the main loop; a changed size is an error. */
  function Relocate(c: Config, b: Bytes): (Bytes, Status) {
    if |b| < 64 || Arch(b) != Some(c.wide) then (b, Done)
    else
      var elf := ReadElf(b);
      var (b1, s1) := ChangeInterpreter(c, b, elf);
      if s1 == Raised then (b1, Raised)
      else
        var (b2, s2) := ChangeDlSysdirs(c, b1, elf);
        if s2 != Done then (b2, s2) else if |b2| != |b| then (b2, Exit) else (b2, s1)
  }

  // ---- what a relocated file looks like ----

  predicate IsElf(c: Config, b: Bytes) {
    |b| >= 64 && Arch(b) == Some(c.wide)
  }

  /** The section names. */
  function Strtab(b: Bytes, elf: Elf): Bytes {
    match SectionAt(b, elf, elf.shstrndx)
    case None => []
    case Some(s) => ReadAt(b, s.offset, s.size)
  }

  /** What the headers say: the interpreter, the sections with their roles, and the size of a length. */
  datatype Plan = Plan(interp: Interp, sections: seq<Section>, roles: seq<Role>, word: nat)

  function SectionOrNone(b: Bytes, elf: Elf, i: nat): Section {
    var s := SectionAt(b, elf, i);
    if s.Some? then s.value else Section(0, 0, 0, 0)
  }

  function PlanOf(b: Bytes): (p: Plan)
    requires |b| >= 64
    ensures |p.sections| == |p.roles| == ReadElf(b).shnum
  {
    var elf := ReadElf(b);
    Plan(FindInterp(b, elf, 0),
         seq(elf.shnum, i requires 0 <= i < elf.shnum => SectionOrNone(b, elf, i)),
         seq(elf.shnum, i requires 0 <= i < elf.shnum => RoleOf(SectionOrNone(b, elf, i), Strtab(b, elf))),
         Word(elf))
  }

  datatype Region = Region(offset: nat, size: nat)

  function RegionOf(s: Section): Region {
    Region(s.offset, s.size)
  }

  ghost predicate Fair(p: Plan) {
    |p.sections| == |p.roles|
  }

  /** What may be rewritten: number 0 is the interpreter, number i + 1 is section i when it is one of the four. */
  function RegionNo(p: Plan, n: nat): Option<Region>
    requires Fair(p)
  {
    if n == 0 then
      if p.interp.Interp? then Some(Region(p.interp.offset, if p.interp.filesz < 11 then 11 else p.interp.filesz))
           else None
    else if n <= |p.roles| && p.roles[n - 1] != Other then Some(RegionOf(p.sections[n - 1]))
    else None
  }

  /** The last of the first i places that has the role. */
  function LastOf(roles: seq<Role>, role: Role, i: nat): (r: Option<nat>)
    requires i <= |roles|
    ensures r.Some? ==> r.value < i && roles[r.value] == role
  {
    if i == 0 then None else if roles[i - 1] == role then Some(i - 1) else LastOf(roles, role, i - 1)
  }

  function Last(roles: seq<Role>, role: Role): (r: Option<nat>)
    ensures r.Some? ==> r.value < |roles| && roles[r.value] == role
  {
    LastOf(roles, role, |roles|)
  }

  function Content(b: Bytes, r: Region): Bytes {
    ReadAt(b, r.offset, r.size)
  }

  /** The new paths, if there are both sections for them. */
  function NewPaths(c: Config, p: Plan, b: Bytes): Option<seq<Bytes>>
    requires Fair(p)
  {
    var dirs := Last(p.roles, SysDirs);
    if dirs.None? || Last(p.roles, SysDirsLen).None? then None
    else Some(SubAll(c.swap, PathsOf(Content(b, RegionOf(p.sections[dirs.value])))))
  }

  /** The start of an earlier text replaced. */
  function Over(data: Bytes, before: Bytes): Bytes {
    if |data| <= |before| then data + before[|data|..] else data
  }

  /** What a patched section is to hold. */
  function NewText(c: Config, role: Role, text: Bytes): Bytes {
    if role == LdSoCache then PadText(c.swap, text, |text|) else PadBlocks(c.swap, text)
  }

  /** What a region is to hold, given the file before. */
  function Want(c: Config, p: Plan, b: Bytes, n: nat): Bytes
    requires Fair(p) && RegionNo(p, n).Some?
  {
    var text := Content(b, RegionNo(p, n).value);
    if n == 0 then
      if HostPath(ReadAt(b, p.interp.offset, 11)) || |c.dlPath| >= p.interp.filesz then text
      else Over(Padded(c.dlPath, p.interp.filesz), text)
    else if Patched(p.roles[n - 1]) then
      NewText(c, p.roles[n - 1], text)
    else
      var paths := NewPaths(c, p, b);
      if paths.Some? && Last(p.roles, SysDirs) == Some(n - 1)
           then Over(Padded(Terminated(paths.value), p.sections[n - 1].size), text)
      else if paths.Some? && Last(p.roles, SysDirsLen) == Some(n - 1) then Over(Lengths(paths.value, p.word), text)
      else text
  }

  predicate Patched(role: Role) {
    role == LdSoCache || role == GccRelocPrefix
  }

  predicate RoleFits(c: Config, role: Role, text: Bytes, size: nat) {
    match role
    case LdSoCache => TextFits(c.swap, text, size)
    case GccRelocPrefix => BlocksFit(c.swap, text)
    case _ => true
  }

  predicate Apart(r: Region, q: Region) {
    r.size == 0 || q.size == 0 || r.offset + r.size <= q.offset || q.offset + q.size <= r.offset
  }

  ghost predicate InPlace(p: Plan, b: Bytes, n: nat)
    requires Fair(p)
  {
    RegionNo(p, n).Some? ==> RegionNo(p, n).value.offset + RegionNo(p, n).value.size <= |b|
  }

  ghost predicate ApartNo(p: Plan, m: nat, n: nat)
    requires Fair(p)
  {
    RegionNo(p, m).Some? && RegionNo(p, n).Some? ==> Apart(RegionNo(p, m).value, RegionNo(p, n).value)
  }

  /** The regions lie in the file and apart from each other. */
  ghost predicate WellPlaced(p: Plan, b: Bytes) {
    && Fair(p)
    && (forall n: nat :: InPlace(p, b, n))
    && (forall m: nat, n: nat :: m != n ==> ApartNo(p, m, n))
  }

  function ProgramEntry(elf: Elf, i: nat): Region {
    Region(elf.phoff + i * elf.phentsize, elf.phentsize)
  }

  function SectionEntry(elf: Elf, i: nat): Region {
    Region(elf.shoff + i * elf.shentsize, elf.shentsize)
  }

  /** The region holds no header, no table entry and no section name. */
  ghost predicate OffHeaders(b: Bytes, r: Region)
    requires |b| >= 64
  {
    var elf := ReadElf(b);
    && Apart(r, Region(0, 64))
    && (forall i :: 0 <= i < elf.phnum ==> Apart(r, ProgramEntry(elf, i)))
    && (forall i :: 0 <= i < elf.shnum ==> Apart(r, SectionEntry(elf, i)))
    && Apart(r, SectionEntry(elf, elf.shstrndx))
    && Apart(r, RegionOf(SectionOrNone(b, elf, elf.shstrndx)))
  }

  ghost predicate OffHeadersNo(b: Bytes, p: Plan, n: nat)
    requires |b| >= 64 && Fair(p)
  {
    RegionNo(p, n).Some? ==> OffHeaders(b, RegionNo(p, n).value)
  }

  /** Readable headers, and regions that lie in the file, off the headers and apart from each other. */
  ghost predicate WellLaid(c: Config, b: Bytes) {
    && IsElf(c, b)
    && var elf := ReadElf(b);
    && FindInterp(b, elf, 0) != Malformed
    && SectionAt(b, elf, elf.shstrndx).Some?
    && (forall i :: 0 <= i < elf.shnum ==> SectionAt(b, elf, i).Some?)
    && WellPlaced(PlanOf(b), b)
    && (forall n: nat :: OffHeadersNo(b, PlanOf(b), n))
  }

  ghost predicate SectionFits(c: Config, p: Plan, b: Bytes, i: nat)
    requires Fair(p) && i < |p.roles|
  {
    RoleFits(c, p.roles[i], Content(b, RegionOf(p.sections[i])), p.sections[i].size)
  }

  ghost predicate FitsFrom(c: Config, p: Plan, b: Bytes, i: nat)
    requires Fair(p)
  {
    forall j :: i <= j < |p.roles| ==> SectionFits(c, p, b, j)
  }

  /** `.sysdirs` comes with `.sysdirslen`, and what is written into each fits. */
  ghost predicate DirsFit(c: Config, p: Plan, b: Bytes)
    requires Fair(p)
  {
    var dirs, lens := Last(p.roles, SysDirs), Last(p.roles, SysDirsLen);
    dirs.Some? ==>
      && lens.Some?
      && |Terminated(NewPaths(c, p, b).value)| <= p.sections[dirs.value].size
      && |Lengths(NewPaths(c, p, b).value, p.word)| <= p.sections[lens.value].size
  }

  predicate Inside(r: Region, k: nat) {
    r.offset <= k < r.offset + r.size
  }

  ghost predicate Covered(p: Plan, done: set<nat>, k: nat)
    requires Fair(p)
  {
    exists n :: n in done && RegionNo(p, n).Some? && Inside(RegionNo(p, n).value, k)
  }

  ghost predicate Holds(c: Config, p: Plan, b0: Bytes, b: Bytes, n: nat)
    requires Fair(p)
  {
    RegionNo(p, n).Some? ==> Content(b, RegionNo(p, n).value) == Want(c, p, b0, n)
  }

  /** The regions done hold what they should, and every other byte is as before. */
  ghost predicate Shows(c: Config, p: Plan, b0: Bytes, b: Bytes, done: set<nat>)
    requires Fair(p)
  {
    && |b| == |b0|
    && (forall k: nat :: k < |b| && !Covered(p, done, k) ==> b[k] == b0[k])
    && (forall n :: n in done ==> Holds(c, p, b0, b, n))
  }

  // ---- bytes that stay ----

  lemma WriteInFile(b: Bytes, off: nat, data: Bytes)
    requires off + |data| <= |b|
    ensures |WriteAt(b, off, data)| == |b|
    ensures forall k :: 0 <= k < |b| ==> WriteAt(b, off, data)[k] == if off <= k < off + |data| then data[k - off]
              else b[k]
  {
  }

  lemma ReadSame(b0: Bytes, b: Bytes, r: Region)
    requires |b0| == |b| && forall k: nat :: k < |b| && Inside(r, k) ==> b[k] == b0[k]
    ensures Content(b, r) == Content(b0, r)
  {
    forall k | 0 <= k < |Content(b, r)|
      ensures Content(b, r)[k] == Content(b0, r)[k]
    {
      assert Inside(r, r.offset + k);
    }
  }

  ghost predicate AllApart(p: Plan, done: set<nat>, r: Region)
    requires Fair(p)
  {
    forall n :: n in done && RegionNo(p, n).Some? ==> Apart(RegionNo(p, n).value, r)
  }

  lemma NotCovered(p: Plan, done: set<nat>, r: Region, k: nat)
    requires Fair(p) && Inside(r, k) && AllApart(p, done, r)
    ensures !Covered(p, done, k)
  {
  }

  /** A region apart from all that were written reads as before. */
  lemma ReadApart(c: Config, p: Plan, b0: Bytes, b: Bytes, done: set<nat>, r: Region)
    requires Fair(p) && Shows(c, p, b0, b, done) && AllApart(p, done, r)
    ensures Content(b, r) == Content(b0, r)
  {
    forall k: nat | k < |b| && Inside(r, k)
      ensures b[k] == b0[k]
    {
      NotCovered(p, done, r, k);
    }
    ReadSame(b0, b, r);
  }

  /** A region not written yet reads as in the beginning. */
  lemma NotYet(c: Config, p: Plan, b0: Bytes, b: Bytes, done: set<nat>, n: nat)
    requires WellPlaced(p, b0) && Shows(c, p, b0, b, done) && n !in done && RegionNo(p, n).Some?
    ensures Content(b, RegionNo(p, n).value) == Content(b0, RegionNo(p, n).value)
  {
    forall m | m in done && RegionNo(p, m).Some?
      ensures Apart(RegionNo(p, m).value, RegionNo(p, n).value)
    {
      assert ApartNo(p, m, n);
    }
    ReadApart(c, p, b0, b, done, RegionNo(p, n).value);
  }

  // ---- one region after another ----

  /** Writing at the start of a region in the file. */
  lemma WrittenContent(b: Bytes, r: Region, data: Bytes)
    requires |data| <= r.size && r.offset + r.size <= |b|
    ensures Content(WriteAt(b, r.offset, data), r) == Over(data, Content(b, r))
  {
    var b' := WriteAt(b, r.offset, data);
    WriteInFile(b, r.offset, data);
    var start, mid, end := r.offset, r.offset + |data|, r.offset + r.size;
    assert b'[start..mid] == data;
    assert b'[mid..end] == b[mid..end];
    SliceSplit(b', start, mid, end);
    SliceSplit(b, start, mid, end);
  }

  lemma SliceSplit(b: Bytes, start: nat, mid: nat, end: nat)
    requires start <= mid <= end <= |b|
    ensures b[start..end] == b[start..mid] + b[mid..end] && b[start..end][mid - start..] == b[mid..end]
  {
  }

  lemma ContentApart(b: Bytes, r: Region, data: Bytes, q: Region)
    requires |data| <= r.size && r.offset + r.size <= |b| && Apart(r, q)
    ensures Content(WriteAt(b, r.offset, data), q) == Content(b, q)
  {
    WriteInFile(b, r.offset, data);
    ReadSame(b, WriteAt(b, r.offset, data), q);
  }

  lemma CoveredMore(p: Plan, done: set<nat>, n: nat, k: nat)
    requires Fair(p)
    ensures Covered(p, done, k) ==> Covered(p, done + {n}, k)
    ensures RegionNo(p, n).Some? && Inside(RegionNo(p, n).value, k) ==> Covered(p, done + {n}, k)
  {
    if Covered(p, done, k) {
      var m :| m in done && RegionNo(p, m).Some? && Inside(RegionNo(p, m).value, k);
      assert m in done + {n};
    }
    assert n in done + {n};
  }

  /** Writing one more region. */
  lemma ShowsMore(c: Config, p: Plan, b0: Bytes, b: Bytes, done: set<nat>, n: nat, r: Region, data: Bytes)
    requires WellPlaced(p, b0) && Shows(c, p, b0, b, done) && n !in done && RegionNo(p, n) == Some(r)
    requires |data| <= r.size && Want(c, p, b0, n) == Over(data, Content(b0, r))
    ensures Shows(c, p, b0, WriteAt(b, r.offset, data), done + {n})
  {
    assert InPlace(p, b0, n);
    var b' := WriteAt(b, r.offset, data);
    WriteInFile(b, r.offset, data);
    forall k: nat | k < |b'| && !Covered(p, done + {n}, k)
      ensures b'[k] == b0[k]
    {
      CoveredMore(p, done, n, k);
      assert !Inside(r, k);
    }
    forall m | m in done + {n}
      ensures Holds(c, p, b0, b', m)
    {
      if m == n {
        NotYet(c, p, b0, b, done, n);
        WrittenContent(b, r, data);
      } else {
        HoldsStill(c, p, b0, b, done, m, n, r, data);
      }
    }
  }

  lemma HoldsStill(c: Config, p: Plan, b0: Bytes, b: Bytes, done: set<nat>, m: nat, n: nat, r: Region, data: Bytes)
    requires WellPlaced(p, b0) && Shows(c, p, b0, b, done) && m in done && n !in done && RegionNo(p, n) == Some(r)
    requires |data| <= r.size
    ensures Holds(c, p, b0, WriteAt(b, r.offset, data), m)
  {
    assert Holds(c, p, b0, b, m);
    assert InPlace(p, b0, n);
    if RegionNo(p, m).Some? {
      assert ApartNo(p, n, m);
      ContentApart(b, r, data, RegionNo(p, m).value);
    }
  }

  /** The region keeps its text. */
  ghost predicate Keeps(c: Config, p: Plan, b: Bytes, n: nat)
    requires Fair(p)
  {
    RegionNo(p, n).Some? ==> Want(c, p, b, n) == Content(b, RegionNo(p, n).value)
  }

  function UpTo(n: nat): (s: set<nat>)
    ensures forall m: nat :: m in s <==> m <= n
  {
    if n == 0 then {0} else UpTo(n - 1) + {n}
  }

  /** All regions. */
  function All(p: Plan): set<nat> {
    UpTo(|p.roles|)
  }

  lemma CoveredAll(p: Plan, done: set<nat>, k: nat)
    requires Fair(p) && Covered(p, done, k)
    ensures Covered(p, All(p), k)
  {
    var m :| m in done && RegionNo(p, m).Some? && Inside(RegionNo(p, m).value, k);
    assert m in All(p);
  }

  /** Regions that keep their text need no writing. */
  lemma ShowsAll(c: Config, p: Plan, b0: Bytes, b: Bytes, done: set<nat>)
    requires WellPlaced(p, b0) && Shows(c, p, b0, b, done)
    requires forall n :: n in All(p) && n !in done ==> Keeps(c, p, b0, n)
    ensures Shows(c, p, b0, b, All(p))
  {
    forall k: nat | k < |b| && !Covered(p, All(p), k)
      ensures b[k] == b0[k]
    {
      if Covered(p, done, k) {
        CoveredAll(p, done, k);
      }
    }
    forall n | n in All(p)
      ensures Holds(c, p, b0, b, n)
    {
      if n !in done && RegionNo(p, n).Some? {
        NotYet(c, p, b0, b, done, n);
      }
    }
  }

  // ---- the headers stay ----

  /** What a reader sees of the headers. */
  ghost predicate SameHeaders(b0: Bytes, b: Bytes)
    requires |b0| >= 64
  {
    var elf := ReadElf(b0);
    && |b| == |b0|
    && b[..64] == b0[..64]
    && (forall i :: 0 <= i < elf.phnum ==> ProgramAt(b, elf, i) == ProgramAt(b0, elf, i))
    && (forall i :: 0 <= i < elf.shnum ==> SectionAt(b, elf, i) == SectionAt(b0, elf, i))
    && SectionAt(b, elf, elf.shstrndx) == SectionAt(b0, elf, elf.shstrndx)
    && Strtab(b, elf) == Strtab(b0, elf)
  }

  lemma HeadersOff(c: Config, b: Bytes, p: Plan, done: set<nat>)
    requires WellLaid(c, b) && p == PlanOf(b)
    ensures var elf := ReadElf(b);
            && AllApart(p, done, Region(0, 64))
            && (forall i :: 0 <= i < elf.phnum ==> AllApart(p, done, ProgramEntry(elf, i)))
            && (forall i :: 0 <= i < elf.shnum ==> AllApart(p, done, SectionEntry(elf, i)))
            && AllApart(p, done, SectionEntry(elf, elf.shstrndx))
            && AllApart(p, done, RegionOf(SectionOrNone(b, elf, elf.shstrndx)))
  {
    forall n | n in done && RegionNo(p, n).Some?
      ensures OffHeaders(b, RegionNo(p, n).value)
    {
      assert OffHeadersNo(b, p, n);
    }
  }

  lemma HeadersStay(c: Config, p: Plan, b0: Bytes, b: Bytes, done: set<nat>)
    requires WellLaid(c, b0) && p == PlanOf(b0) && Shows(c, p, b0, b, done)
    ensures SameHeaders(b0, b)
  {
    var elf := ReadElf(b0);
    HeadersOff(c, b0, p, done);
    ReadApart(c, p, b0, b, done, Region(0, 64));
    assert Content(b, Region(0, 64)) == b[..64] && Content(b0, Region(0, 64)) == b0[..64];
    forall i | 0 <= i < elf.phnum
      ensures ProgramAt(b, elf, i) == ProgramAt(b0, elf, i)
    {
      assert AllApart(p, done, ProgramEntry(elf, i));
      ReadApart(c, p, b0, b, done, ProgramEntry(elf, i));
    }
    forall i | 0 <= i < elf.shnum
      ensures SectionAt(b, elf, i) == SectionAt(b0, elf, i)
    {
      assert AllApart(p, done, SectionEntry(elf, i));
      ReadApart(c, p, b0, b, done, SectionEntry(elf, i));
    }
    ReadApart(c, p, b0, b, done, SectionEntry(elf, elf.shstrndx));
    ReadApart(c, p, b0, b, done, RegionOf(SectionOrNone(b0, elf, elf.shstrndx)));
  }

  lemma ElfStays(b0: Bytes, b: Bytes)
    requires |b0| >= 64 && SameHeaders(b0, b)
    ensures ReadElf(b) == ReadElf(b0) && Arch(b) == Arch(b0)
  {
    assert b[0] == b[..64][0] && b[4] == b[..64][4];
    assert b0[0] == b0[..64][0] && b0[4] == b0[..64][4];
  }

  lemma {:induction false} InterpStays(b0: Bytes, b: Bytes, elf: Elf, i: nat)
    requires forall j :: 0 <= j < elf.phnum ==> ProgramAt(b, elf, j) == ProgramAt(b0, elf, j)
    ensures FindInterp(b, elf, i) == FindInterp(b0, elf, i)
    decreases elf.phnum - i
  {
    if i < elf.phnum {
      assert ProgramAt(b, elf, i) == ProgramAt(b0, elf, i);
      InterpStays(b0, b, elf, i + 1);
    }
  }

  lemma PlanStays(b0: Bytes, b: Bytes)
    requires |b0| >= 64 && SameHeaders(b0, b)
    ensures |b| >= 64 && PlanOf(b) == PlanOf(b0)
  {
    var elf := ReadElf(b0);
    ElfStays(b0, b);
    InterpStays(b0, b, elf, 0);
    var p, p0 := PlanOf(b), PlanOf(b0);
    forall i | 0 <= i < elf.shnum
      ensures p.sections[i] == p0.sections[i]
      ensures p.roles[i] == p0.roles[i]
    {
      assert SectionAt(b, elf, i) == SectionAt(b0, elf, i);
      assert p.sections[i] == SectionOrNone(b, elf, i) && p0.sections[i] == SectionOrNone(b0, elf, i);
    }
    assert p.sections == p0.sections && p.roles == p0.roles;
  }

  // ---- the parts of the program ----

  lemma WriteTwice(b: Bytes, off: nat, x: Bytes, y: Bytes)
    requires off + |x| + |y| <= |b|
    ensures WriteAt(WriteAt(b, off, x), off + |x|, y) == WriteAt(b, off, x + y)
  {
    var one, two, both := WriteAt(b, off, x), WriteAt(WriteAt(b, off, x), off + |x|, y), WriteAt(b, off, x + y);
    WriteInFile(b, off, x);
    WriteInFile(one, off + |x|, y);
    WriteInFile(b, off, x + y);
    forall k | 0 <= k < |b|
      ensures two[k] == both[k]
    {
      assert two[k] == if off + |x| <= k < off + |x| + |y| then y[k - off - |x|] else one[k];
    }
  }

  lemma WriteBack(b: Bytes, off: nat, n: nat)
    requires off + n <= |b|
    ensures WriteAt(b, off, ReadAt(b, off, n)) == b
  {
    WriteInFile(b, off, ReadAt(b, off, n));
  }

  lemma SplitRead(b: Bytes, at: nat, m: nat, n: nat)
    requires at + m + n <= |b|
    ensures ReadAt(b, at, m + n) == ReadAt(b, at, m) + ReadAt(b, at + m, n)
  {
  }

  /** Reading behind what was just written. */
  lemma ReadBehind(b: Bytes, at: nat, data: Bytes, n: nat)
    requires at + |data| + n <= |b|
    ensures ReadAt(WriteAt(b, at, data), at + |data|, n) == ReadAt(b, at + |data|, n)
    ensures |WriteAt(b, at, data)| == |b|
  {
    WriteInFile(b, at, data);
  }

  lemma PadBlocksOne(w: Swap, head: Bytes, tail: Bytes)
    requires |head| == BLOCK
    ensures PadBlocks(w, head + tail) == PadText(w, head, BLOCK) + PadBlocks(w, tail)
    ensures BlocksFit(w, head + tail) <==> TextFits(w, head, BLOCK) && BlocksFit(w, tail)
  {
    assert (head + tail)[..BLOCK] == head && (head + tail)[BLOCK..] == tail;
  }

  /** The blocks from `at` on are written as one patch, or one does not fit. */
  ghost predicate AsOne(c: Config, b: Bytes, at: nat, left: nat, text: Bytes) {
    && (Blocks(c, b, at, left).1 <==> BlocksFit(c.swap, text))
    && (BlocksFit(c.swap, text) ==> Blocks(c, b, at, left).0 == WriteAt(b, at, PadBlocks(c.swap, text)))
  }

  lemma BlocksOne(c: Config, b: Bytes, at: nat, left: nat, at1: nat, left1: nat)
    requires left == left1 + BLOCK && at1 == at + BLOCK
    ensures Blocks(c, b, at, left) ==
            if BlockStep(c, b, at).1 then Blocks(c, BlockStep(c, b, at).0, at1, left1)
                 else (BlockStep(c, b, at).0, false)
  {
    var (b', ok) := BlockStep(c, b, at);
    assert at + BLOCK == at1 && left - BLOCK == left1;
  }

  lemma BlocksEnd(c: Config, b: Bytes, at: nat, left: nat, result: (Bytes, bool))
    requires left < BLOCK && Blocks(c, b, at, left) == result
    ensures result == (b, true)
  {
  }

  lemma BlocksFirst(c: Config, b: Bytes, at: nat, left: nat, head: Bytes, first: Bytes, b1: Bytes, at1: nat, left1: nat)
    requires left == left1 + BLOCK && at1 == at + BLOCK
    requires head == ReadAt(b, at, BLOCK) && first == PadText(c.swap, head, BLOCK) && TextFits(c.swap, head, BLOCK)
    requires b1 == WriteAt(b, at, first)
    ensures Blocks(c, b, at, left) == Blocks(c, b1, at1, left1)
  {
    BlocksOne(c, b, at, left, at1, left1);
  }

  lemma BlocksStop(c: Config, b: Bytes, at: nat, left: nat, head: Bytes)
    requires left >= BLOCK && head == ReadAt(b, at, BLOCK) && !TextFits(c.swap, head, BLOCK)
    ensures !Blocks(c, b, at, left).1
  {
    BlocksOne(c, b, at, left, at + BLOCK, left - BLOCK);
  }

  /** The bytes around one block: what the next one reads is behind, and writing both is writing once. */
  lemma BlockBytes(b: Bytes, at: nat, left: nat, text: Bytes, head: Bytes, tail: Bytes, first: Bytes, b1: Bytes,
                   at1: nat, left1: nat)
    requires left == left1 + BLOCK && at1 == at + BLOCK && at + left <= |b| && |first| == BLOCK
    requires text == ReadAt(b, at, left) && head == ReadAt(b, at, BLOCK) && tail == ReadAt(b1, at1, left1)
    requires b1 == WriteAt(b, at, first)
    ensures |b1| == |b| && text == head + tail && |head| == BLOCK && |tail| == left1
  {
    SplitRead(b, at, BLOCK, left1);
    ReadBehind(b, at, first, left1);
  }

  /** What the first block and the rest come to, the rest having been patched as one. */
  lemma AsOneStep(c: Config, b: Bytes, at: nat, left: nat, text: Bytes, head: Bytes, tail: Bytes, first: Bytes,
                  b1: Bytes, at1: nat, left1: nat)
    requires left == left1 + BLOCK && at1 == at + BLOCK && at + left <= |b| && |tail| == left1
    requires text == head + tail && |head| == BLOCK && TextFits(c.swap, head, BLOCK)
             && first == PadText(c.swap, head, BLOCK)
    requires b1 == WriteAt(b, at, first) && Blocks(c, b, at, left) == Blocks(c, b1, at1, left1)
    requires AsOne(c, b1, at1, left1, tail)
    ensures AsOne(c, b, at, left, text)
  {
    PadBlocksOne(c.swap, head, tail);
    if BlocksFit(c.swap, tail) {
      BlocksLength(c.swap, tail);
      WriteTwice(b, at, first, PadBlocks(c.swap, tail));
    }
  }

  /** The loop over the blocks, whose reads go on where its writes end, is one patch of the section. */
  lemma {:induction false} BlocksWrite(c: Config, b: Bytes, at: nat, left: nat, text: Bytes)
    requires at + left <= |b| && text == ReadAt(b, at, left)
    ensures AsOne(c, b, at, left, text)
    decreases left, 1
  {
    if left < BLOCK {
      WriteBack(b, at, left);
    } else {
      var head := ReadAt(b, at, BLOCK);
      if TextFits(c.swap, head, BLOCK) {
        BlocksGoOn(c, b, at, left, text, head);
      } else {
        BlocksStop(c, b, at, left, head);
        SplitRead(b, at, BLOCK, left - BLOCK);
        PadBlocksOne(c.swap, head, ReadAt(b, at + BLOCK, left - BLOCK));
      }
    }
  }

  lemma {:induction false} BlocksGoOn(c: Config, b: Bytes, at: nat, left: nat, text: Bytes, head: Bytes)
    requires left >= BLOCK && at + left <= |b| && text == ReadAt(b, at, left)
    requires head == ReadAt(b, at, BLOCK) && TextFits(c.swap, head, BLOCK)
    ensures AsOne(c, b, at, left, text)
    decreases left, 0
  {
    var first := PadText(c.swap, head, BLOCK);
    var b1, at1, left1 := WriteAt(b, at, first), at + BLOCK, left - BLOCK;
    var tail := ReadAt(b1, at1, left1);
    BlockBytes(b, at, left, text, head, tail, first, b1, at1, left1);
    BlocksWrite(c, b1, at1, left1, tail);
    BlocksFirst(c, b, at, left, head, first, b1, at1, left1);
    AsOneStep(c, b, at, left, text, head, tail, first, b1, at1, left1);
  }

  /** The regions that are final when the first i sections were looked at. */
  function DoneAt(roles: seq<Role>, i: nat): (done: set<nat>)
    requires i <= |roles|
    ensures forall n :: n in done ==> n <= i && (n == 0 || Patched(roles[n - 1]))
    ensures forall n :: 0 < n <= i && Patched(roles[n - 1]) ==> n in done
    ensures 0 in done
  {
    if i == 0 then {0} else DoneAt(roles, i - 1) + if Patched(roles[i - 1]) then {i} else {}
  }

  function DoneAll(roles: seq<Role>): set<nat> {
    DoneAt(roles, |roles|)
  }

  lemma InterpShows(c: Config, p: Plan, elf: Elf, b: Bytes)
    requires WellPlaced(p, b) && p.interp == FindInterp(b, elf, 0) && p.interp != Malformed
    ensures var (b', s) := ChangeInterpreter(c, b, elf);
            (s == Done || s == Failed) && Shows(c, p, b, b', {0})
  {
    assert Shows(c, p, b, b, {});
    if p.interp.Interp? {
      var r := RegionNo(p, 0).value;
      var data := if HostPath(ReadAt(b, p.interp.offset, 11)) || |c.dlPath| >= p.interp.filesz then []
            else Padded(c.dlPath, p.interp.filesz);
      ShowsMore(c, p, b, b, {}, 0, r, data);
      assert {} + {0} == {0};
    }
  }

  /** What the loop remembers after i sections are the last two of its kind. */
  ghost predicate Matches(p: Plan, b0: Bytes, found: Found, i: nat)
    requires Fair(p) && i <= |p.roles|
  {
    var dirs, lens := LastOf(p.roles, SysDirs, i), LastOf(p.roles, SysDirsLen, i);
    && found.dirs == (if dirs.Some? then Some(DirsOf(b0, p.sections[dirs.value])) else None)
    && found.lens == (if lens.Some? then Some(p.sections[lens.value].offset) else None)
  }

  function DirsOf(b: Bytes, s: Section): Dirs {
    Dirs(Content(b, RegionOf(s)), s.offset, s.size)
  }

  /** How far the loop has come when it looks at section i. */
  ghost predicate LoopAt(c: Config, p: Plan, b0: Bytes, b: Bytes, found: Found, i: nat)
    requires Fair(p) && i <= |p.roles|
  {
    Shows(c, p, b0, b, DoneAt(p.roles, i)) && Matches(p, b0, found, i)
  }

  /** A patched section is written as one, and the step fails exactly when the text does not fit. */
  lemma PatchWrites(c: Config, b: Bytes, s: Section, role: Role, found: Found)
    requires s.offset + s.size <= |b| && Patched(role)
    ensures var text := Content(b, RegionOf(s));
            var (b', found', status) := SectionStep(c, b, s, role, found);
            && status == (if RoleFits(c, role, text, s.size) then Done else Exit)
            && (status == Done ==>
                  found' == found && |NewText(c, role, text)| == s.size
                    && b' == WriteAt(b, s.offset, NewText(c, role, text)))
  {
    if role == GccRelocPrefix {
      BlocksWrite(c, b, s.offset, s.size, Content(b, RegionOf(s)));
      if BlocksFit(c.swap, Content(b, RegionOf(s))) {
        BlocksLength(c.swap, Content(b, RegionOf(s)));
      }
    }
  }

  lemma PatchShows(c: Config, p: Plan, b0: Bytes, b: Bytes, found: Found, i: nat, done: set<nat>)
    requires WellPlaced(p, b0) && i < |p.roles| && Patched(p.roles[i]) && Shows(c, p, b0, b, done) && i + 1 !in done
    ensures var (b', found', status) := SectionStep(c, b, p.sections[i], p.roles[i], found);
            && status == (if SectionFits(c, p, b0, i) then Done else Exit)
            && (status == Done ==> found' == found && Shows(c, p, b0, b', done + {i + 1}))
  {
    var s, role := p.sections[i], p.roles[i];
    var text := Content(b0, RegionOf(s));
    assert InPlace(p, b0, i + 1);
    NotYet(c, p, b0, b, done, i + 1);
    PatchWrites(c, b, s, role, found);
    if SectionFits(c, p, b0, i) {
      assert Over(NewText(c, role, text), text) == NewText(c, role, text);
      ShowsMore(c, p, b0, b, done, i + 1, RegionOf(s), NewText(c, role, text));
    }
  }

  /** One section: it stops the program exactly when its text does not fit. */
  lemma StepShows(c: Config, p: Plan, b0: Bytes, b: Bytes, found: Found, i: nat)
    requires WellPlaced(p, b0) && i < |p.roles| && LoopAt(c, p, b0, b, found, i)
    ensures var (b', found', status) := SectionStep(c, b, p.sections[i], p.roles[i], found);
            && status == (if SectionFits(c, p, b0, i) then Done else Exit)
            && (status == Done ==> LoopAt(c, p, b0, b', found', i + 1))
  {
    var role := p.roles[i];
    var done := DoneAt(p.roles, i);
    if Patched(role) {
      PatchShows(c, p, b0, b, found, i, done);
    } else if role == SysDirs {
      NotYet(c, p, b0, b, done, i + 1);
    }
  }

  /** The entries read along the way are those of the beginning. */
  lemma SectionsAre(c: Config, p: Plan, elf: Elf, tab: Bytes, b0: Bytes, b: Bytes, done: set<nat>, i: nat)
    requires WellLaid(c, b0) && p == PlanOf(b0) && elf == ReadElf(b0) && tab == Strtab(b0, elf)
    requires Shows(c, p, b0, b, done) && i < |p.roles|
    ensures elf.shnum == |p.roles| && SectionAt(b, elf, i) == Some(p.sections[i])
    ensures p.roles[i] == RoleOf(p.sections[i], tab)
  {
    HeadersStay(c, p, b0, b, done);
    assert SectionAt(b0, elf, i).Some?;
  }

  lemma LoopUnfold(c: Config, b: Bytes, elf: Elf, tab: Bytes, i: nat, found: Found, s: Section, role: Role)
    requires i < elf.shnum && SectionAt(b, elf, i) == Some(s) && role == RoleOf(s, tab)
    ensures var (b', found', status) := SectionStep(c, b, s, role, found);
            SectionLoop(c, b, elf, tab, i, found) ==
            if status != Done then (b', found', status) else SectionLoop(c, b', elf, tab, i + 1, found')
  {
  }

  lemma FitsFirst(c: Config, p: Plan, b: Bytes, i: nat)
    requires Fair(p) && i < |p.roles|
    ensures FitsFrom(c, p, b, i) <==> SectionFits(c, p, b, i) && FitsFrom(c, p, b, i + 1)
  {
  }

  /** The loop over the sections. */
  lemma {:induction false} LoopShows(c: Config, p: Plan, elf: Elf, tab: Bytes, b0: Bytes, b: Bytes, found: Found,
                                     i: nat)
    requires WellLaid(c, b0) && p == PlanOf(b0) && elf == ReadElf(b0) && tab == Strtab(b0, elf)
    requires i <= |p.roles| && LoopAt(c, p, b0, b, found, i)
    ensures var (b', found', status) := SectionLoop(c, b, elf, tab, i, found);
            && status == (if FitsFrom(c, p, b0, i) then Done else Exit)
            && (status == Done ==> LoopAt(c, p, b0, b', found', |p.roles|))
    decreases |p.roles| - i
  {
    if i < |p.roles| {
      SectionsAre(c, p, elf, tab, b0, b, DoneAt(p.roles, i), i);
      StepShows(c, p, b0, b, found, i);
      FitsFirst(c, p, b0, i);
      LoopUnfold(c, b, elf, tab, i, found, p.sections[i], p.roles[i]);
      var (b', found', status) := SectionStep(c, b, p.sections[i], p.roles[i], found);
      if status == Done {
        LoopShows(c, p, elf, tab, b0, b', found', i + 1);
      }
    }
  }

  // ---- the whole file ----

  lemma RestKeeps(c: Config, p: Plan, b: Bytes, k: nat, i: nat)
    requires Fair(p) && k <= |p.roles| && k == i + 1 && !Patched(p.roles[i])
    requires NewPaths(c, p, b).Some? ==> Last(p.roles, SysDirs) != Some(i) && Last(p.roles, SysDirsLen) != Some(i)
    ensures Keeps(c, p, b, k)
  {
  }

  lemma NotDone(roles: seq<Role>, k: nat)
    requires k <= |roles| && k !in DoneAll(roles)
    ensures k > 0 && !Patched(roles[k - 1])
  {
  }

  lemma EndShows(c: Config, p: Plan, elf: Elf, b0: Bytes, b: Bytes, found: Found)
    requires WellPlaced(p, b0) && DirsFit(c, p, b0) && p.word == Word(elf) && LoopAt(c, p, b0, b, found, |p.roles|)
    ensures var (b', status) := WriteDirs(c, b, elf, found);
            status == Done && Shows(c, p, b0, b', All(p))
  {
    if found.dirs.Some? {
      EndWithDirs(c, p, elf, b0, b, found, Last(p.roles, SysDirs).value, Last(p.roles, SysDirsLen).value);
    } else {
      NoDirsShow(c, p, b0, b);
    }
  }

  lemma EndWithDirs(c: Config, p: Plan, elf: Elf, b0: Bytes, b: Bytes, found: Found, m: nat, n: nat)
    requires WellPlaced(p, b0) && DirsFit(c, p, b0) && p.word == Word(elf) && Shows(c, p, b0, b, DoneAll(p.roles))
    requires Last(p.roles, SysDirs) == Some(m) && Last(p.roles, SysDirsLen) == Some(n)
    requires found == Found(Some(DirsOf(b0, p.sections[m])), Some(p.sections[n].offset))
    ensures var (b', status) := WriteDirs(c, b, elf, found);
            status == Done && Shows(c, p, b0, b', All(p))
  {
    var paths, s, t := NewPaths(c, p, b0).value, p.sections[m], p.sections[n];
    var x, y, i, j := Padded(Terminated(paths), s.size), Lengths(paths, p.word), m + 1, n + 1;
    DirsSizes(c, p, b0, m, n, paths);
    WritesDirs(c, b, elf, found, paths);
    TwoWrites(c, p, b0, b, m, n, paths, s, t, i, j, x, y);
    RestShow(c, p, b0, WriteDirs(c, b, elf, found).0, m, n, i, j, DoneAll(p.roles) + {i} + {j});
  }

  lemma RestAllKeep(c: Config, p: Plan, b: Bytes, m: nat, n: nat, i: nat, j: nat, done: set<nat>)
    requires Fair(p) && Last(p.roles, SysDirs) == Some(m) && Last(p.roles, SysDirsLen) == Some(n)
    requires i == m + 1 && j == n + 1 && done == DoneAll(p.roles) + {i} + {j}
    ensures forall k :: k in All(p) && k !in done ==> Keeps(c, p, b, k)
  {
    forall k | k in All(p) && k !in done
      ensures Keeps(c, p, b, k)
    {
      NotDone(p.roles, k);
      RestKeeps(c, p, b, k, k - 1);
    }
  }

  lemma RestShow(c: Config, p: Plan, b0: Bytes, b: Bytes, m: nat, n: nat, i: nat, j: nat, done: set<nat>)
    requires WellPlaced(p, b0) && Shows(c, p, b0, b, done)
    requires Last(p.roles, SysDirs) == Some(m) && Last(p.roles, SysDirsLen) == Some(n)
    requires i == m + 1 && j == n + 1 && done == DoneAll(p.roles) + {i} + {j}
    ensures Shows(c, p, b0, b, All(p))
  {
    RestAllKeep(c, p, b0, m, n, i, j, done);
    ShowsAll(c, p, b0, b, done);
  }

  lemma NoDirsShow(c: Config, p: Plan, b0: Bytes, b: Bytes)
    requires WellPlaced(p, b0) && Shows(c, p, b0, b, DoneAll(p.roles)) && Last(p.roles, SysDirs).None?
    ensures Shows(c, p, b0, b, All(p))
  {
    forall k | k in All(p) && k !in DoneAll(p.roles)
      ensures Keeps(c, p, b0, k)
    {
      NotDone(p.roles, k);
      RestKeeps(c, p, b0, k, k - 1);
    }
    ShowsAll(c, p, b0, b, DoneAll(p.roles));
  }

  lemma WantDirs(c: Config, p: Plan, b: Bytes, m: nat, paths: seq<Bytes>, i: nat)
    requires Fair(p) && NewPaths(c, p, b) == Some(paths) && Last(p.roles, SysDirs) == Some(m) && i == m + 1
    ensures m < |p.roles| && p.roles[m] == SysDirs && RegionNo(p, i) == Some(RegionOf(p.sections[m]))
    ensures Want(c, p, b, i) == Over(Padded(Terminated(paths), p.sections[m].size), Content(b, RegionOf(p.sections[m])))
  {
  }

  lemma WantLens(c: Config, p: Plan, b: Bytes, n: nat, paths: seq<Bytes>, j: nat)
    requires Fair(p) && NewPaths(c, p, b) == Some(paths) && Last(p.roles, SysDirsLen) == Some(n) && j == n + 1
    ensures n < |p.roles| && p.roles[n] == SysDirsLen && RegionNo(p, j) == Some(RegionOf(p.sections[n]))
    ensures Want(c, p, b, j) == Over(Lengths(paths, p.word), Content(b, RegionOf(p.sections[n])))
  {
  }

  /** The end of the loop writes two regions. */
  lemma TwoWrites(c: Config, p: Plan, b0: Bytes, b: Bytes, m: nat, n: nat, paths: seq<Bytes>, s: Section,
                  t: Section, i: nat, j: nat, x: Bytes, y: Bytes)
    requires WellPlaced(p, b0) && Shows(c, p, b0, b, DoneAll(p.roles)) && NewPaths(c, p, b0) == Some(paths)
    requires Last(p.roles, SysDirs) == Some(m) && Last(p.roles, SysDirsLen) == Some(n) && i == m + 1 && j == n + 1
    requires s == p.sections[m] && t == p.sections[n]
    requires x == Padded(Terminated(paths), s.size) && y == Lengths(paths, p.word)
    requires |x| <= s.size && |y| <= t.size
    ensures Shows(c, p, b0, WriteAt(WriteAt(b, s.offset, x), t.offset, y), DoneAll(p.roles) + {i} + {j})
  {
    WantDirs(c, p, b0, m, paths, i);
    WantLens(c, p, b0, n, paths, j);
    BothShow(c, p, b0, b, i, j, RegionOf(s), RegionOf(t), x, y);
  }

  lemma DirsSizes(c: Config, p: Plan, b: Bytes, m: nat, n: nat, paths: seq<Bytes>)
    requires Fair(p) && DirsFit(c, p, b) && NewPaths(c, p, b) == Some(paths)
    requires Last(p.roles, SysDirs) == Some(m) && Last(p.roles, SysDirsLen) == Some(n)
    ensures m < |p.roles| && n < |p.roles|
    ensures |Terminated(paths)| <= p.sections[m].size && |Lengths(paths, p.word)| <= p.sections[n].size
    ensures paths == SubAll(c.swap, PathsOf(Content(b, RegionOf(p.sections[m]))))
  {
  }

  lemma BothShow(c: Config, p: Plan, b0: Bytes, b: Bytes, m: nat, n: nat, r: Region, q: Region, x: Bytes, y: Bytes)
    requires WellPlaced(p, b0) && Shows(c, p, b0, b, DoneAll(p.roles)) && 0 < m <= |p.roles| && 0 < n <= |p.roles|
    requires p.roles[m - 1] == SysDirs && p.roles[n - 1] == SysDirsLen && RegionNo(p, m) == Some(r)
             && RegionNo(p, n) == Some(q)
    requires |x| <= r.size && Want(c, p, b0, m) == Over(x, Content(b0, r))
    requires |y| <= q.size && Want(c, p, b0, n) == Over(y, Content(b0, q))
    ensures Shows(c, p, b0, WriteAt(WriteAt(b, r.offset, x), q.offset, y), DoneAll(p.roles) + {m} + {n})
  {
    BothMore(c, p, b0, b, DoneAll(p.roles), m, n, r, q, x, y);
  }

  lemma BothMore(c: Config, p: Plan, b0: Bytes, b: Bytes, done: set<nat>, m: nat, n: nat, r: Region, q: Region,
                 x: Bytes, y: Bytes)
    requires WellPlaced(p, b0) && Shows(c, p, b0, b, done) && m !in done && n !in done && m != n
    requires RegionNo(p, m) == Some(r) && |x| <= r.size && Want(c, p, b0, m) == Over(x, Content(b0, r))
    requires RegionNo(p, n) == Some(q) && |y| <= q.size && Want(c, p, b0, n) == Over(y, Content(b0, q))
    ensures Shows(c, p, b0, WriteAt(WriteAt(b, r.offset, x), q.offset, y), done + {m} + {n})
  {
    ShowsMore(c, p, b0, b, done, m, r, x);
    ShowsMore(c, p, b0, WriteAt(b, r.offset, x), done + {m}, n, q, y);
  }

  /** Directories without their lengths. */
  ghost predicate LengthsMissing(p: Plan) {
    Last(p.roles, SysDirs).Some? && Last(p.roles, SysDirsLen).None?
  }

  /** The file and what was found when the directories are to be written, and what is left to do. */
  lemma LoopDone(c: Config, b: Bytes) returns (b2: Bytes, found: Found)
    requires WellLaid(c, b)
    ensures var p, elf, s1 := PlanOf(b), ReadElf(b), ChangeInterpreter(c, b, ReadElf(b)).1;
            && p.word == Word(elf) && (s1 == Done || s1 == Failed)
            && if FitsFrom(c, p, b, 0) then
                 && LoopAt(c, p, b, b2, found, |p.roles|)
                 && var (b3, s2) := WriteDirs(c, b2, elf, found);
                    Relocate(c, b) == (b3, if s2 != Done then s2 else if |b3| != |b| then Exit else s1)
               else Relocate(c, b) == (b2, Exit)
  {
    var elf, p := ReadElf(b), PlanOf(b);
    InterpShows(c, p, elf, b);
    var b1 := ChangeInterpreter(c, b, elf).0;
    HeadersStay(c, p, b, b1, {0});
    var none := Found(None, None);
    assert LoopAt(c, p, b, b1, none, 0);
    var tab := Strtab(b, elf);
    LoopShows(c, p, elf, tab, b, b1, none, 0);
    b2, found := SectionLoop(c, b1, elf, tab, 0, none).0, SectionLoop(c, b1, elf, tab, 0, none).1;
  }

  /**
   Relocating a well-laid file: the program stops when the text of a section does not fit, and raises when directories
   come without their lengths; otherwise, if directories and lengths fit, every region holds what it should, and
   every other byte is kept.
   */
  lemma Relocated(c: Config, b: Bytes)
    requires WellLaid(c, b)
    ensures var p := PlanOf(b);
            var (b', s) := Relocate(c, b);
            && (!FitsFrom(c, p, b, 0) ==> s == Exit)
            && (FitsFrom(c, p, b, 0) && LengthsMissing(p) ==> s == Raised)
            && (FitsFrom(c, p, b, 0) && DirsFit(c, p, b) ==>
                  s == ChangeInterpreter(c, b, ReadElf(b)).1 && (s == Done || s == Failed)
                    && Shows(c, p, b, b', All(p)))
  {
    var p := PlanOf(b);
    var b2, found := LoopDone(c, b);
    if FitsFrom(c, p, b, 0) && DirsFit(c, p, b) {
      EndShows(c, p, ReadElf(b), b, b2, found);
    }
  }

  lemma WritesDirs(c: Config, b: Bytes, elf: Elf, found: Found, paths: seq<Bytes>)
    requires found.dirs.Some? && found.lens.Some? && paths == SubAll(c.swap, PathsOf(found.dirs.value.text))
    ensures var d := found.dirs.value;
            WriteDirs(c, b, elf, found) ==
            (WriteAt(WriteAt(b, d.offset, Padded(Terminated(paths), d.size)), found.lens.value,
                     Lengths(paths, Word(elf))), Done)
  {
  }

  // ---- a second run ----

  /** The section still fits, and would be given the text it has. */
  lemma PatchedAgain(c: Config, p: Plan, b0: Bytes, b1: Bytes, i: nat, n: nat)
    requires WellPlaced(p, b0) && Good(c.swap) && Shows(c, p, b0, b1, All(p))
    requires i < |p.roles| && n == i + 1 && SectionFits(c, p, b0, i)
    ensures SectionFits(c, p, b1, i)
    ensures Patched(p.roles[i]) ==> Keeps(c, p, b1, n)
  {
    var s, role := p.sections[i], p.roles[i];
    var text := Content(b0, RegionOf(s));
    if Patched(role) {
      assert InPlace(p, b0, n) && Holds(c, p, b0, b1, n);
      assert RegionNo(p, n) == Some(RegionOf(s));
      if role == LdSoCache {
        PatchedText(c.swap, text, s.size);
      } else {
        PatchedBlocks(c.swap, text);
      }
    }
  }

  lemma InterpAgain(c: Config, p: Plan, b0: Bytes, b1: Bytes)
    requires WellPlaced(p, b0) && Shows(c, p, b0, b1, All(p)) && p.interp.Interp?
    ensures Keeps(c, p, b1, 0)
    ensures Want(c, p, b0, 0) == Content(b0, RegionNo(p, 0).value) ==>
              HostPath(ReadAt(b1, p.interp.offset, 11)) == HostPath(ReadAt(b0, p.interp.offset, 11))
  {
    var r := RegionNo(p, 0).value;
    assert InPlace(p, b0, 0) && Holds(c, p, b0, b1, 0);
    assert ReadAt(b0, r.offset, 11) == Content(b0, r)[..11];
    assert ReadAt(b1, r.offset, 11) == Content(b1, r)[..11];
    OverAgain(Padded(c.dlPath, p.interp.filesz), Content(b0, r));
  }

  lemma OverAgain(data: Bytes, text: Bytes)
    ensures Over(data, Over(data, text)) == Over(data, text)
  {
  }

  lemma DirsWritten(c: Config, p: Plan, b0: Bytes, b1: Bytes, m: nat, paths: seq<Bytes>)
    requires WellPlaced(p, b0) && Shows(c, p, b0, b1, All(p)) && Last(p.roles, SysDirs) == Some(m)
    requires NewPaths(c, p, b0) == Some(paths) && |Terminated(paths)| <= p.sections[m].size
    ensures Content(b1, RegionOf(p.sections[m])) == Padded(Terminated(paths), p.sections[m].size)
  {
    var s := p.sections[m];
    WantDirs(c, p, b0, m, paths, m + 1);
    assert InPlace(p, b0, m + 1) && Holds(c, p, b0, b1, m + 1);
    OverAll(Padded(Terminated(paths), s.size), Content(b0, RegionOf(s)));
  }

  lemma OverAll(data: Bytes, text: Bytes)
    requires |data| >= |text|
    ensures Over(data, text) == data
  {
  }

  /** The paths read from what was written are those that were written. */
  lemma PathsAgain(c: Config, p: Plan, b0: Bytes, b1: Bytes)
    requires WellPlaced(p, b0) && Good(c.swap) && Shows(c, p, b0, b1, All(p)) && DirsFit(c, p, b0)
    ensures NewPaths(c, p, b1) == NewPaths(c, p, b0)
  {
    var dirs, paths := Last(p.roles, SysDirs), NewPaths(c, p, b0);
    if paths.Some? {
      var s := p.sections[dirs.value];
      DirsWritten(c, p, b0, b1, dirs.value, paths.value);
      PatchedDirs(c.swap, Content(b0, RegionOf(s)), s.size);
    }
  }

  lemma DirsAgain(c: Config, p: Plan, b0: Bytes, b1: Bytes, n: nat)
    requires WellPlaced(p, b0) && Good(c.swap) && Shows(c, p, b0, b1, All(p)) && DirsFit(c, p, b0)
    requires 0 < n <= |p.roles| && RegionNo(p, n).Some? && !Patched(p.roles[n - 1])
    ensures Keeps(c, p, b1, n)
  {
    PathsAgain(c, p, b0, b1);
    assert Holds(c, p, b0, b1, n);
    var text, paths := Content(b0, RegionNo(p, n).value), NewPaths(c, p, b0);
    if paths.Some? {
      OverAgain(Padded(Terminated(paths.value), p.sections[n - 1].size), text);
      OverAgain(Lengths(paths.value, p.word), text);
    }
  }

  /** After one run, every region has what it is to hold. */
  lemma AllAgain(c: Config, p: Plan, b0: Bytes, b1: Bytes, n: nat)
    requires WellPlaced(p, b0) && Good(c.swap) && Shows(c, p, b0, b1, All(p)) && FitsFrom(c, p, b0, 0)
             && DirsFit(c, p, b0)
    ensures Keeps(c, p, b1, n)
  {
    if RegionNo(p, n).Some? {
      if n == 0 {
        InterpAgain(c, p, b0, b1);
      } else if Patched(p.roles[n - 1]) {
        assert SectionFits(c, p, b0, n - 1);
        PatchedAgain(c, p, b0, b1, n - 1, n);
      } else {
        DirsAgain(c, p, b0, b1, n);
      }
    }
  }

  lemma SameContent(c: Config, p: Plan, b1: Bytes, b2: Bytes, n: nat, r: Region)
    requires Fair(p) && Shows(c, p, b1, b2, All(p)) && Keeps(c, p, b1, n) && n in All(p) && RegionNo(p, n) == Some(r)
    ensures Content(b2, r) == Content(b1, r)
  {
    assert Holds(c, p, b1, b2, n);
  }

  lemma SameInside(b1: Bytes, b2: Bytes, r: Region, k: nat)
    requires |b1| == |b2| && Content(b2, r) == Content(b1, r) && r.offset + r.size <= |b1| && Inside(r, k)
    ensures b2[k] == b1[k]
  {
    assert Content(b2, r)[k - r.offset] == b2[k] && Content(b1, r)[k - r.offset] == b1[k];
  }

  lemma NothingNew(c: Config, p: Plan, b1: Bytes, b2: Bytes)
    requires WellPlaced(p, b1) && Shows(c, p, b1, b2, All(p)) && forall n :: Keeps(c, p, b1, n)
    ensures b2 == b1
  {
    forall k: nat | k < |b1|
      ensures b2[k] == b1[k]
    {
      if Covered(p, All(p), k) {
        var n :| n in All(p) && RegionNo(p, n).Some? && Inside(RegionNo(p, n).value, k);
        assert Keeps(c, p, b1, n) && InPlace(p, b1, n);
        SameContent(c, p, b1, b2, n, RegionNo(p, n).value);
        SameInside(b1, b2, RegionNo(p, n).value, k);
      }
    }
  }

  lemma StillLaid(c: Config, p: Plan, b0: Bytes, b1: Bytes)
    requires WellLaid(c, b0) && p == PlanOf(b0) && Shows(c, p, b0, b1, All(p))
    ensures WellLaid(c, b1) && PlanOf(b1) == p && ReadElf(b1) == ReadElf(b0)
  {
    HeadersStay(c, p, b0, b1, All(p));
    ElfStays(b0, b1);
    PlanStays(b0, b1);
    StillReadable(c, b0, b1);
    forall n: nat
      ensures InPlace(p, b1, n) && OffHeadersNo(b1, p, n)
    {
      assert InPlace(p, b0, n) && OffHeadersNo(b0, p, n);
    }
  }

  lemma StillReadable(c: Config, b0: Bytes, b1: Bytes)
    requires WellLaid(c, b0) && SameHeaders(b0, b1) && ReadElf(b1) == ReadElf(b0)
    ensures var elf := ReadElf(b0);
            && SectionAt(b1, elf, elf.shstrndx).Some?
            && FindInterp(b1, elf, 0) != Malformed
            && (forall i :: 0 <= i < elf.shnum ==> SectionAt(b1, elf, i).Some?)
  {
    var elf := ReadElf(b0);
    InterpStays(b0, b1, elf, 0);
    forall i | 0 <= i < elf.shnum
      ensures SectionAt(b1, elf, i).Some?
    {
      assert SectionAt(b1, elf, i) == SectionAt(b0, elf, i) && SectionAt(b0, elf, i).Some?;
    }
  }

  lemma StillFits(c: Config, p: Plan, b0: Bytes, b1: Bytes)
    requires WellPlaced(p, b0) && Good(c.swap) && Shows(c, p, b0, b1, All(p)) && FitsFrom(c, p, b0, 0)
             && DirsFit(c, p, b0)
    ensures FitsFrom(c, p, b1, 0) && DirsFit(c, p, b1)
  {
    PathsAgain(c, p, b0, b1);
    forall i | 0 <= i < |p.roles|
      ensures SectionFits(c, p, b1, i)
    {
      assert SectionFits(c, p, b0, i);
      PatchedAgain(c, p, b0, b1, i, i + 1);
    }
  }

  /** Relocating a second time changes nothing and reports the same, for a prefix that is absolute and has no '#'. */
  lemma RelocatedTwice(c: Config, b: Bytes)
    requires WellLaid(c, b) && Good(c.swap) && FitsFrom(c, PlanOf(b), b, 0) && DirsFit(c, PlanOf(b), b)
    ensures Relocate(c, Relocate(c, b).0) == Relocate(c, b)
  {
    var p, b1 := PlanOf(b), Relocate(c, b).0;
    Relocated(c, b);
    StillLaid(c, p, b, b1);
    StillFits(c, p, b, b1);
    Relocated(c, b1);
    forall n
      ensures Keeps(c, p, b1, n)
    {
      AllAgain(c, p, b, b1, n);
    }
    NothingNew(c, p, b1, Relocate(c, b1).0);
    if p.interp.Interp? {
      InterpAgain(c, p, b, b1);
    }
  }

  /** The same for the placeholder that the SDK is built with. */
  lemma SdkRelocatedTwice(c: Config, b: Bytes)
    requires c.swap.placeholder == Ascii("##DEFAULT_INSTALL_DIR##") && GoodPrefix(c.swap.prefix)
    requires WellLaid(c, b) && FitsFrom(c, PlanOf(b), b, 0) && DirsFit(c, PlanOf(b), b)
    ensures Relocate(c, Relocate(c, b).0) == Relocate(c, b)
  {
    PlaceholderIsGood();
    RelocatedTwice(c, b);
  }

  /** Each block of a relocated section is its own text, substituted and padded with zeros. */
  lemma RelocatedBlock(c: Config, b: Bytes, i: nat, j: nat)
    requires WellLaid(c, b) && FitsFrom(c, PlanOf(b), b, 0) && DirsFit(c, PlanOf(b), b)
    requires i < |PlanOf(b).roles| && PlanOf(b).roles[i] == GccRelocPrefix
             && (j + 1) * BLOCK <= PlanOf(b).sections[i].size
    ensures var r := RegionOf(PlanOf(b).sections[i]);
            var b' := Relocate(c, b).0;
            && |Content(b, r)| == |Content(b', r)| == r.size
            && BlockOf(Content(b', r), j) == PadText(c.swap, BlockOf(Content(b, r), j), BLOCK)
  {
    var p := PlanOf(b);
    var r := RegionOf(p.sections[i]);
    Relocated(c, b);
    assert InPlace(p, b, i + 1) && Holds(c, p, b, Relocate(c, b).0, i + 1);
    assert SectionFits(c, p, b, i);
    BlockAt(c.swap, Content(b, r), j);
  }

  // ---- the program ----

  class SdkFile {
    var bytes: Bytes
    var pos: nat

    constructor (bytes: Bytes)
      ensures this.bytes == bytes && pos == 0
    {
      this.bytes, pos := bytes, 0;
    }

    method Seek(off: nat)
      modifies this`pos
      ensures pos == off
    {
      pos := off;
    }

    method Read(n: nat) returns (data: Bytes)
      modifies this`pos
      ensures data == ReadAt(bytes, old(pos), n) && pos == old(pos) + |data|
    {
      data := ReadAt(bytes, pos, n);
      pos := pos + |data|;
    }

    method Write(data: Bytes)
      modifies this
      ensures bytes == WriteAt(old(bytes), old(pos), data) && pos == old(pos) + |data|
    {
      bytes := WriteAt(bytes, pos, data);
      pos := pos + |data|;
    }

    method PutAt(off: nat, data: Bytes)
      modifies this
      ensures bytes == WriteAt(old(bytes), off, data) && pos == off + |data|
    {
      Seek(off);
      Write(data);
    }

    method ReadProgram(elf: Elf, i: nat) returns (p: Option<Program>)
      modifies this`pos
      ensures p == ProgramAt(bytes, elf, i)
    {
      Seek(elf.phoff + i * elf.phentsize);
      var entry := Read(elf.phentsize);
      p := ProgramOf(entry, elf);
    }

    method ReadSection(elf: Elf, i: nat) returns (s: Option<Section>)
      modifies this`pos
      ensures s == SectionAt(bytes, elf, i)
    {
      Seek(elf.shoff + i * elf.shentsize);
      var entry := Read(elf.shentsize);
      s := SectionOf(entry, elf);
    }

    method PatchInterpreter(c: Config, elf: Elf) returns (status: Status)
      modifies this
      ensures (bytes, status) == ChangeInterpreter(c, old(bytes), elf)
    {
      for i := 0 to elf.phnum
        invariant bytes == old(bytes) && FindInterp(bytes, elf, 0) == FindInterp(bytes, elf, i)
      {
        var p := ReadProgram(elf, i);
        if p.None? {
          return Raised;
        }
        if p.value.kind == 3 {
          status := PatchPath(c, p.value.offset, p.value.filesz);
          return;
        }
      }
      return Done;
    }

    method PatchPath(c: Config, offset: nat, filesz: nat) returns (status: Status)
      modifies this
      ensures (bytes, status) ==
              if HostPath(ReadAt(old(bytes), offset, 11)) || filesz == 0 then (old(bytes), Done)
              else if |c.dlPath| >= filesz then (old(bytes), Failed)
              else (WriteAt(old(bytes), offset, Padded(c.dlPath, filesz)), Done)
    {
      Seek(offset);
      var fname := Read(11);
      if HostPath(fname) || filesz == 0 {
        return Done;
      }
      if |c.dlPath| >= filesz {
        return Failed;
      }
      Seek(offset);
      Write(c.dlPath + Zeros(filesz - |c.dlPath|));
      return Done;
    }

    /** Reading a block leaves the cursor at its end, and so does writing it back. */
    method PatchBlock(c: Config) returns (ok: bool)
      modifies this
      ensures (bytes, ok) == BlockStep(c, old(bytes), old(pos))
      ensures ok ==> pos == old(pos) + BLOCK
    {
      var at := pos;
      var path := Read(4096);
      var newPath := StripRight(Sub(c.swap, path), 0);
      if |newPath| >= 4096 {
        return false;
      }
      newPath := newPath + Zeros(4096 - |newPath|);
      PutAt(at, newPath);
      return true;
    }

    /** The cursor stands at the start of the next block, before and after; result is what all blocks come to. */
    method PatchNext(c: Config, ghost left: nat, ghost next: nat, ghost result: (Bytes, bool)) returns (ok: bool)
      requires left == next + BLOCK && Blocks(c, bytes, pos, left) == result
      modifies this
      ensures ok ==> pos == old(pos) + BLOCK && Blocks(c, bytes, pos, next) == result
      ensures !ok ==> result == (bytes, false)
    {
      BlocksOne(c, bytes, pos, left, pos + BLOCK, next);
      ok := PatchBlock(c);
    }

    method PatchBlocks(c: Config, size: nat) returns (ok: bool)
      modifies this
      ensures (bytes, ok) == Blocks(c, old(bytes), old(pos), size)
    {
      var offset := 0;
      ghost var left: nat, result := size, Blocks(c, bytes, pos, size);
      while offset + BLOCK <= size
        invariant offset + left == size && pos == old(pos) + offset
        invariant Blocks(c, bytes, pos, left) == result
      {
        ghost var next: nat := left - BLOCK;
        ok := PatchNext(c, left, next, result);
        if !ok {
          return;
        }
        offset, left := offset + BLOCK, next;
      }
      BlocksEnd(c, bytes, pos, left, result);
      return true;
    }

    method PatchCachePath(c: Config, s: Section) returns (status: Status)
      requires pos == s.offset
      modifies this
      ensures var path := StripRight(Sub(c.swap, ReadAt(old(bytes), s.offset, s.size)), 0);
              (bytes, status) ==
              if |path| >= s.size then (old(bytes), Exit)
                   else (WriteAt(old(bytes), s.offset, Padded(path, s.size)), Done)
    {
      var text := Read(s.size);
      var path := StripRight(Sub(c.swap, text), 0);
      if |path| >= s.size {
        return Exit;
      }
      path := path + Zeros(s.size - |path|);
      PutAt(s.offset, path);
      return Done;
    }

    method PatchSection(c: Config, s: Section, role: Role, found: Found) returns (found': Found, status: Status)
      modifies this
      ensures (bytes, found', status) == SectionStep(c, old(bytes), s, role, found)
    {
      found', status := found, Done;
      Seek(s.offset);
      match role
      case SysDirs =>
        var text := Read(s.size);
        found' := found.(dirs := Some(Dirs(text, s.offset, s.size)));
      case SysDirsLen =>
        var lengths := Read(s.size);
        found' := found.(lens := Some(s.offset));
      case LdSoCache =>
        status := PatchCachePath(c, s);
      case GccRelocPrefix =>
        var ok := PatchBlocks(c, s.size);
        return found', if ok then Done else Exit;
      case Other =>
    }

    method PatchSections(c: Config, elf: Elf) returns (status: Status)
      modifies this
      ensures (bytes, status) == ChangeDlSysdirs(c, old(bytes), elf)
    {
      var strtab := ReadSection(elf, elf.shstrndx);
      if strtab.None? {
        return Raised;
      }
      Seek(strtab.value.offset);
      var tab := Read(strtab.value.size);
      var found := Found(None, None);
      for i := 0 to elf.shnum
        invariant SectionLoop(c, old(bytes), elf, tab, 0, Found(None, None)) ==
                    SectionLoop(c, bytes, elf, tab, i, found)
      {
        var s := ReadSection(elf, i);
        if s.None? {
          return Raised;
        }
        found, status := PatchSection(c, s.value, RoleOf(s.value, tab), found);
        if status != Done {
          return;
        }
      }
      status := PatchDirs(c, elf, found);
    }

    method PatchDirs(c: Config, elf: Elf, found: Found) returns (status: Status)
      modifies this
      ensures (bytes, status) == WriteDirs(c, old(bytes), elf, found)
    {
      if found.dirs.None? {
        return Done;
      }
      if found.lens.None? {
        return Raised;
      }
      var d := found.dirs.value;
      var sysdirs, sysdirslen := NewDirs(c, Split(d.text, 0), Word(elf));
      WritesDirs(c, bytes, elf, found, SubAll(c.swap, PathsOf(d.text)));
      PutAt(d.offset, Padded(sysdirs, d.size));
      PutAt(found.lens.value, sysdirslen);
      return Done;
    }

    method NewDirs(c: Config, paths: seq<Bytes>, word: nat) returns (sysdirs: Bytes, sysdirslen: Bytes)
      ensures sysdirs == Terminated(SubAll(c.swap, BeforeEmpty(paths)))
      ensures sysdirslen == Lengths(SubAll(c.swap, BeforeEmpty(paths)), word)
    {
      sysdirs, sysdirslen := [], [];
      for i := 0 to |paths|
        invariant Written(c, paths, word, sysdirs, sysdirslen, paths[i..])
      {
        assert paths[i..][0] == paths[i] && paths[i..][1..] == paths[i + 1..];
        if paths[i] == [] {
          return;
        }
        var newPath := Sub(c.swap, paths[i]);
        WrittenMore(c, paths, word, sysdirs, sysdirslen, paths[i..]);
        sysdirs := sysdirs + (newPath + [0]);
        sysdirslen := sysdirslen + Little(|newPath|, word);
      }
    }

    method Run(c: Config) returns (status: Status)
      modifies this
      ensures (bytes, status) == Relocate(c, old(bytes))
    {
      var size := |bytes|;
      if size < 64 || Arch(bytes) != Some(c.wide) {
        return Done;
      }
      var elf := ReadElf(bytes);
      var interpreter := PatchInterpreter(c, elf);
      if interpreter == Raised {
        return Raised;
      }
      status := PatchSections(c, elf);
      if status != Done {
        return;
      }
      return if |bytes| != size then Exit else interpreter;
    }
  }

  /** What was put together so far, and what the rest of the paths adds, make the whole. */
  ghost predicate Written(c: Config, paths: seq<Bytes>, word: nat, dirs: Bytes, lengths: Bytes, rest: seq<Bytes>) {
    && Terminated(SubAll(c.swap, BeforeEmpty(paths))) == dirs + Terminated(SubAll(c.swap, BeforeEmpty(rest)))
    && Lengths(SubAll(c.swap, BeforeEmpty(paths)), word) == lengths + Lengths(SubAll(c.swap, BeforeEmpty(rest)), word)
  }

  lemma WrittenMore(c: Config, paths: seq<Bytes>, word: nat, dirs: Bytes, lengths: Bytes, rest: seq<Bytes>)
    requires rest != [] && rest[0] != [] && Written(c, paths, word, dirs, lengths, rest)
    ensures var first := Sub(c.swap, rest[0]);
            Written(c, paths, word, dirs + (first + [0]), lengths + Little(|first|, word), rest[1..])
  {
    PathsOne(c, rest, word);
  }

  lemma PathsOne(c: Config, paths: seq<Bytes>, word: nat)
    requires paths != [] && paths[0] != []
    ensures var first, rest := Sub(c.swap, paths[0]), SubAll(c.swap, BeforeEmpty(paths[1..]));
            && Terminated(SubAll(c.swap, BeforeEmpty(paths))) == first + [0] + Terminated(rest)
            && Lengths(SubAll(c.swap, BeforeEmpty(paths)), word) == Little(|first|, word) + Lengths(rest, word)
  {
    var before := BeforeEmpty(paths);
    assert before == [paths[0]] + BeforeEmpty(paths[1..]);
    assert before[1..] == BeforeEmpty(paths[1..]);
    var all := SubAll(c.swap, before);
    assert all[1..] == SubAll(c.swap, BeforeEmpty(paths[1..]));
  }
}
