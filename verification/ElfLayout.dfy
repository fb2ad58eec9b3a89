/**
 The headers of ELF files as they are laid out: field after field, in either byte order and either width. Whatever is
 written there is what the program reads.
 */
module ElfLayout {
  import opened Sequences
  import opened Patching
  import opened Relocation

  // ---- numbers ----

  function Pow256(n: nat): (p: nat)
    ensures p >= 1
  {
    if n == 0 then 1 else 256 * Pow256(n - 1)
  }

  /** A number in n bytes. */
  function Put(x: nat, n: nat, big: bool): (d: Bytes)
    ensures |d| == n
  {
    if n == 0 then [] else if big then Put(x / 256, n - 1, big) + [x % 256] else [x % 256] + Put(x / 256, n - 1, big)
  }

  lemma NumLast(d: Bytes, x: Byte)
    ensures Num(d + [x], true) == Num(d, true) * 256 + x
  {
    assert (d + [x])[..|d|] == d;
  }

  lemma NumFirst(x: Byte, d: Bytes)
    ensures Num([x] + d, false) == x + 256 * Num(d, false)
  {
    assert ([x] + d)[1..] == d;
  }

  /** A number that fits is read as it was written, in both byte orders. */
  lemma {:induction false} NumOfPut(x: nat, n: nat, big: bool)
    requires x < Pow256(n)
    ensures Num(Put(x, n, big), big) == x
    decreases n
  {
    if n > 0 {
      var q, r := x / 256, x % 256;
      assert x == 256 * q + r;
      assert q < Pow256(n - 1);
      NumOfPut(q, n - 1, big);
      if big {
        NumLast(Put(q, n - 1, big), r);
      } else {
        NumFirst(r, Put(q, n - 1, big));
      }
    }
  }

  /** A number with one more low byte. */
  lemma PutDigit(x: nat, q: nat, r: Byte, n: nat, big: bool)
    requires x == q * 256 + r && q < Pow256(n)
    ensures x < Pow256(n + 1)
    ensures Put(x, n + 1, big) == if big then Put(q, n, big) + [r] else [r] + Put(q, n, big)
  {
    assert x / 256 == q && x % 256 == r;
  }

  /** And any bytes are the number read from them, written. */
  lemma {:induction false} PutOfNum(d: Bytes, n: nat, big: bool)
    requires |d| == n
    ensures Num(d, big) < Pow256(n) && Put(Num(d, big), n, big) == d
    decreases n
  {
    if n > 0 && big {
      var front, last := d[..n - 1], d[n - 1];
      assert d == front + [last];
      PutOfNum(front, n - 1, big);
      NumLast(front, last);
      PutDigit(Num(d, big), Num(front, big), last, n - 1, big);
    } else if n > 0 {
      var first, rest := d[0], d[1..];
      assert d == [first] + rest;
      PutOfNum(rest, n - 1, big);
      NumFirst(first, rest);
      PutDigit(Num(d, big), Num(rest, big), first, n - 1, big);
    }
  }

  /** The lengths of paths are numbers of one width, lowest byte first. */
  lemma {:induction false} LittleIsPut(x: nat, n: nat)
    ensures Little(x, n) == Put(x, n, false)
    decreases n
  {
    if n > 0 {
      LittleIsPut(x / 256, n - 1);
    }
  }

  /** Each length is read back from its place in the list. */
  lemma {:induction false} LengthReadBack(paths: seq<Bytes>, word: nat, i: nat, at: nat)
    requires i < |paths| && |paths[i]| < Pow256(word) && at == i * word
    ensures at + word <= |Lengths(paths, word)| && Num(Lengths(paths, word)[at..at + word], false) == |paths[i]|
    decreases i
  {
    var first, rest := Little(|paths[0]|, word), Lengths(paths[1..], word);
    if i == 0 {
      assert (first + rest)[0..word] == first;
      LittleIsPut(|paths[0]|, word);
      NumOfPut(|paths[0]|, word, false);
    } else {
      WordBefore(word, i, at, at - word);
      LengthReadBack(paths[1..], word, i - 1, at - word);
      SliceBehind(first, rest, at - word, at);
    }
  }

  lemma WordBefore(word: nat, i: nat, at: nat, before: int)
    requires i > 0 && at == i * word && before == at - word
    ensures before == (i - 1) * word && before >= 0
  {
  }

  lemma SliceBehind(first: Bytes, rest: Bytes, from: nat, to: nat)
    requires from <= to <= |rest|
    ensures (first + rest)[from + |first|..to + |first|] == rest[from..to]
  {
  }

  /** A field between two parts of a header. */
  lemma FieldBetween(a: Bytes, x: nat, n: nat, z: Bytes, big: bool)
    requires x < Pow256(n)
    ensures |a + Put(x, n, big) + z| == |a| + n + |z| && Field(a + Put(x, n, big) + z, |a|, n, big) == x
  {
    assert (a + Put(x, n, big) + z)[|a|..|a| + n] == Put(x, n, big);
    NumOfPut(x, n, big);
  }

  lemma Powers()
    ensures Pow256(2) == 0x1_0000 && Pow256(4) == 0x1_0000_0000 && Pow256(8) == 0x1_0000_0000_0000_0000
  {
    assert Pow256(1) == 256 && Pow256(2) == 0x1_0000 && Pow256(3) == 0x100_0000 && Pow256(4) == 0x1_0000_0000;
    assert Pow256(5) == 0x100_0000_0000 && Pow256(6) == 0x1_0000_0000_0000 && Pow256(7) == 0x100_0000_0000_0000;
  }

  // ---- section headers ----

  datatype SectionHeader = SectionHeader(name: nat, kind: nat, flags: nat, addr: nat, offset: nat, size: nat,
                                         link: nat, info: nat, align: nat, entsize: nat)

  /** The size of an address. */
  function Wide(wide: bool): nat {
    if wide then 8 else 4
  }

  /** sh_name, sh_type, sh_flags, sh_addr, sh_offset, sh_size, sh_link, sh_info, sh_addralign, sh_entsize */
  function SectionBytes(h: SectionHeader, wide: bool, big: bool): (d: Bytes)
    ensures |d| == if wide then 64 else 40
  {
    var w := Wide(wide);
    Put(h.name, 4, big) + Put(h.kind, 4, big) + Put(h.flags, w, big) + Put(h.addr, w, big) + Put(h.offset, w, big) +
    Put(h.size, w, big) + Put(h.link, 4, big) + Put(h.info, 4, big) + Put(h.align, w, big) + Put(h.entsize, w, big)
  }

  predicate HeaderFits(h: SectionHeader, wide: bool) {
    && h.name < Pow256(4) && h.kind < Pow256(4)
    && h.offset < Pow256(Wide(wide)) && h.size < Pow256(Wide(wide))
  }

  /** Ten fields, of which four are read. */
  lemma FourOfTen(a: Bytes, b: Bytes, c: Bytes, d: Bytes, e: Bytes, f: Bytes, g: Bytes)
    ensures a + b + c + d + e + f + g == [] + a + (b + c + d + e + f + g)
    ensures a + b + c + d + e + f + g == a + b + (c + d + e + f + g)
    ensures a + b + c + d + e + f + g == (a + b + c + d) + e + (f + g)
    ensures a + b + c + d + e + f + g == (a + b + c + d + e) + f + g
  {
  }

  /** A section header of either width and byte order is read field by field. */
  lemma SectionReadBack(h: SectionHeader, elf: Elf)
    requires HeaderFits(h, elf.wide)
    ensures SectionOf(SectionBytes(h, elf.wide, elf.big), elf) == Some(Section(h.name, h.kind, h.offset, h.size))
  {
    var w, big := Wide(elf.wide), elf.big;
    var a, b, c, d := Put(h.name, 4, big), Put(h.kind, 4, big), Put(h.flags, w, big), Put(h.addr, w, big);
    var e, f := Put(h.offset, w, big), Put(h.size, w, big);
    var g := Put(h.link, 4, big) + Put(h.info, 4, big) + Put(h.align, w, big) + Put(h.entsize, w, big);
    var all := a + b + c + d + e + f + g;
    assert SectionBytes(h, elf.wide, big) == all;
    FourOfTen(a, b, c, d, e, f, g);
    FieldBetween([], h.name, 4, b + c + d + e + f + g, big);
    FieldBetween(a, h.kind, 4, c + d + e + f + g, big);
    FieldBetween(a + b + c + d, h.offset, w, f + g, big);
    FieldBetween(a + b + c + d + e, h.size, w, g, big);
  }

  // ---- program headers ----

  datatype ProgramHeader = ProgramHeader(kind: nat, offset: nat, vaddr: nat, paddr: nat, filesz: nat, memsz: nat,
                                         flags: nat, align: nat)

  /** p_flags stands behind the sizes in narrow files, and second in wide ones. */
  function ProgramBytes(h: ProgramHeader, wide: bool, big: bool): (d: Bytes)
    ensures |d| == if wide then 56 else 32
  {
    if wide then
      Put(h.kind, 4, big) + Put(h.flags, 4, big) + Put(h.offset, 8, big) + Put(h.vaddr, 8, big) +
      Put(h.paddr, 8, big) + Put(h.filesz, 8, big) + Put(h.memsz, 8, big) + Put(h.align, 8, big)
    else
      Put(h.kind, 4, big) + Put(h.offset, 4, big) + Put(h.vaddr, 4, big) + Put(h.paddr, 4, big) +
      Put(h.filesz, 4, big) + Put(h.memsz, 4, big) + Put(h.flags, 4, big) + Put(h.align, 4, big)
  }

  predicate ProgramFits(h: ProgramHeader, wide: bool) {
    h.kind < Pow256(4) && h.offset < Pow256(Wide(wide)) && h.filesz < Pow256(Wide(wide))
  }

  lemma ProgramReadBack(h: ProgramHeader, elf: Elf)
    requires ProgramFits(h, elf.wide)
    ensures ProgramOf(ProgramBytes(h, elf.wide, elf.big), elf) == Some(Program(h.kind, h.offset, h.filesz))
  {
    var big := elf.big;
    if elf.wide {
      var a, b, c := Put(h.kind, 4, big), Put(h.flags, 4, big), Put(h.offset, 8, big);
      var d, e, f := Put(h.vaddr, 8, big), Put(h.paddr, 8, big), Put(h.filesz, 8, big);
      var g := Put(h.memsz, 8, big) + Put(h.align, 8, big);
      assert ProgramBytes(h, true, big) == a + b + c + d + e + f + g;
      FourOfTen(a, b, c, d, e, f, g);
      assert a + b + c + d + e + f + g == (a + b) + c + (d + e + f + g);
      FieldBetween([], h.kind, 4, b + c + d + e + f + g, big);
      FieldBetween(a + b, h.offset, 8, d + e + f + g, big);
      FieldBetween(a + b + c + d + e, h.filesz, 8, g, big);
    } else {
      var a, b, c := Put(h.kind, 4, big), Put(h.offset, 4, big), Put(h.vaddr, 4, big);
      var d, e := Put(h.paddr, 4, big), Put(h.filesz, 4, big);
      var g := Put(h.memsz, 4, big) + Put(h.flags, 4, big) + Put(h.align, 4, big);
      assert ProgramBytes(h, false, big) == a + b + c + d + e + [] + g;
      FourOfTen(a, b, c, d, e, [], g);
      FieldBetween([], h.kind, 4, b + c + d + e + [] + g, big);
      FieldBetween(a, h.offset, 4, c + d + e + [] + g, big);
      FieldBetween(a + b + c + d, h.filesz, 4, [] + g, big);
    }
  }

  // ---- the file header ----

  datatype FileHeader = FileHeader(machine: nat, entry: nat, phoff: nat, shoff: nat, flags: nat, ehsize: nat,
                                   phentsize: nat, phnum: nat, shentsize: nat, shnum: nat, shstrndx: nat)

  /** The magic number, the width, the byte order, and the rest of e_ident. */
  function Ident(wide: bool, big: bool): (d: Bytes)
    ensures |d| == 16
  {
    [0x7f, 0x45, 0x4c, 0x46, if wide then 2 else 1, if big then 2 else 1, 1] + Zeros(9)
  }

  /** e_type, e_machine, e_version, e_entry */
  function HeadStart(h: FileHeader, wide: bool, big: bool): (d: Bytes)
    ensures |d| == if wide then 32 else 28
  {
    Ident(wide, big) + Put(2, 2, big) + Put(h.machine, 2, big) + Put(1, 4, big) + Put(h.entry, Wide(wide), big)
  }

  /** e_phoff, e_shoff, e_flags, e_ehsize, e_phentsize, e_phnum, e_shentsize, e_shnum, e_shstrndx */
  function HeadBytes(h: FileHeader, wide: bool, big: bool): (d: Bytes)
    ensures |d| == if wide then 64 else 52
  {
    var w := Wide(wide);
    HeadStart(h, wide, big) + Put(h.phoff, w, big) + Put(h.shoff, w, big) + Put(h.flags, 4, big) +
    Put(h.ehsize, 2, big) + Put(h.phentsize, 2, big) + Put(h.phnum, 2, big) + Put(h.shentsize, 2, big) +
    Put(h.shnum, 2, big) + Put(h.shstrndx, 2, big)
  }

  predicate HeadFits(h: FileHeader, wide: bool) {
    && h.phoff < Pow256(Wide(wide)) && h.shoff < Pow256(Wide(wide))
    && h.phentsize < Pow256(2) && h.phnum < Pow256(2)
    && h.shentsize < Pow256(2) && h.shnum < Pow256(2) && h.shstrndx < Pow256(2)
  }

  function ElfOf(h: FileHeader, wide: bool, big: bool): Elf {
    Elf(big, wide, h.phoff, h.phentsize, h.phnum, h.shoff, h.shentsize, h.shnum, h.shstrndx)
  }

  lemma FirstTwo(s: Bytes, a: Bytes, b: Bytes, z: Bytes)
    ensures s + a + b + z == s + a + (b + z)
    ensures s + a + b + z == (s + a) + b + z
  {
  }

  /** The five small fields at the end of a part, and what follows. */
  lemma LastFive(p: Bytes, c: Bytes, d: Bytes, e: Bytes, f: Bytes, g: Bytes, z: Bytes)
    ensures p + c + d + e + f + g + z == p + c + (d + e + f + g + z)
    ensures p + c + d + e + f + g + z == (p + c) + d + (e + f + g + z)
    ensures p + c + d + e + f + g + z == (p + c + d) + e + (f + g + z)
    ensures p + c + d + e + f + g + z == (p + c + d + e) + f + (g + z)
    ensures p + c + d + e + f + g + z == (p + c + d + e + f) + g + z
  {
  }

  lemma OffsetsRead(s: Bytes, x: nat, y: nat, w: nat, z: Bytes, big: bool)
    requires x < Pow256(w) && y < Pow256(w)
    ensures var d := s + Put(x, w, big) + Put(y, w, big) + z;
            && |d| == |s| + 2 * w + |z|
            && Field(d, |s|, w, big) == x && Field(d, |s| + w, w, big) == y
  {
    FirstTwo(s, Put(x, w, big), Put(y, w, big), z);
    FieldBetween(s, x, w, Put(y, w, big) + z, big);
    FieldBetween(s + Put(x, w, big), y, w, z, big);
  }

  lemma CountsRead(p: Bytes, h: FileHeader, z: Bytes, big: bool, at: nat)
    requires HeadFits(h, true) && at == |p|
    ensures var d := p + Put(h.phentsize, 2, big) + Put(h.phnum, 2, big) + Put(h.shentsize, 2, big) +
                     Put(h.shnum, 2, big) + Put(h.shstrndx, 2, big) + z;
            && |d| == at + 10 + |z|
            && Field(d, at, 2, big) == h.phentsize && Field(d, at + 2, 2, big) == h.phnum
            && Field(d, at + 4, 2, big) == h.shentsize && Field(d, at + 6, 2, big) == h.shnum
            && Field(d, at + 8, 2, big) == h.shstrndx
  {
    var c, d, e := Put(h.phentsize, 2, big), Put(h.phnum, 2, big), Put(h.shentsize, 2, big);
    var f, g := Put(h.shnum, 2, big), Put(h.shstrndx, 2, big);
    LastFive(p, c, d, e, f, g, z);
    FieldBetween(p, h.phentsize, 2, d + e + f + g + z, big);
    FieldBetween(p + c, h.phnum, 2, e + f + g + z, big);
    FieldBetween(p + c + d, h.shentsize, 2, f + g + z, big);
    FieldBetween(p + c + d + e, h.shnum, 2, g + z, big);
    FieldBetween(p + c + d + e + f, h.shstrndx, 2, z, big);
  }

  /** The header, grouped around the two offsets, and around the counts. */
  lemma HeadGrouped(h: FileHeader, wide: bool, big: bool, z: Bytes)
    ensures var w := Wide(wide);
            var d, s := HeadBytes(h, wide, big) + z, HeadStart(h, wide, big);
            var a, b := Put(h.phoff, w, big), Put(h.shoff, w, big);
            var mid := Put(h.flags, 4, big) + Put(h.ehsize, 2, big);
            var counts := Put(h.phentsize, 2, big) + Put(h.phnum, 2, big) + Put(h.shentsize, 2, big) +
                          Put(h.shnum, 2, big) + Put(h.shstrndx, 2, big);
            && d == s + a + b + (mid + counts + z)
            && d == (s + a + b + mid) + Put(h.phentsize, 2, big) + Put(h.phnum, 2, big) + Put(h.shentsize, 2, big) +
                    Put(h.shnum, 2, big) + Put(h.shstrndx, 2, big) + z
  {
  }

  lemma FitsWide(h: FileHeader, wide: bool)
    requires HeadFits(h, wide)
    ensures HeadFits(h, true)
  {
    Powers();
  }

  /** A file with this header, whatever follows. */
  lemma HeaderReadBack(h: FileHeader, wide: bool, big: bool, rest: Bytes)
    requires HeadFits(h, wide) && |HeadBytes(h, wide, big) + rest| >= 64
    ensures var b := HeadBytes(h, wide, big) + rest;
            Arch(b) == Some(wide) && ReadElf(b) == ElfOf(h, wide, big)
  {
    var b, w := HeadBytes(h, wide, big) + rest, Wide(wide);
    var z := if wide then [] else rest[..12];
    var d := b[..64];
    assert d == HeadBytes(h, wide, big) + z;
    var s, mid := HeadStart(h, wide, big), Put(h.flags, 4, big) + Put(h.ehsize, 2, big);
    HeadGrouped(h, wide, big, z);
    var counts := Put(h.phentsize, 2, big) + Put(h.phnum, 2, big) + Put(h.shentsize, 2, big) + Put(h.shnum, 2, big) +
                  Put(h.shstrndx, 2, big);
    OffsetsRead(s, h.phoff, h.shoff, w, mid + counts + z, big);
    FitsWide(h, wide);
    CountsRead(s + Put(h.phoff, w, big) + Put(h.shoff, w, big) + mid, h, z, big, if wide then 54 else 42);
    IdentRead(h, wide, big, d);
    assert b[0] == d[0] && b[4] == d[4];
  }

  lemma IdentRead(h: FileHeader, wide: bool, big: bool, d: Bytes)
    requires |d| == 64 && HeadBytes(h, wide, big) <= d
    ensures d[0] == 0x7f && d[4] == (if wide then 2 else 1) && d[5] == (if big then 2 else 1)
  {
    var s, i := HeadStart(h, wide, big), Ident(wide, big);
    assert HeadBytes(h, wide, big)[..16] == i by {
      assert s[..16] == i;
    }
    assert d[..16] == i;
    assert d[0] == d[..16][0] && d[4] == d[..16][4] && d[5] == d[..16][5];
  }

  // ---- section names ----

  lemma {:induction false} FindZeroAt(tab: Bytes, at: nat, z: nat)
    requires at <= z < |tab| && tab[z] == 0 && forall i :: at <= i < z ==> tab[i] != 0
    ensures FindZero(tab, at) == Some(z)
    decreases z - at
  {
    if at < z {
      FindZeroAt(tab, at + 1, z);
    }
  }

  lemma NameAt(a: Bytes, s: string, z: Bytes, tab: Bytes)
    requires tab == a + Ascii(s) + [0] + z && '\0' !in s && forall c :: c in s ==> c as int < 256
    ensures Name(tab, |a|) == Ascii(s)
  {
    var at, end := |a|, |a| + |s|;
    assert tab[at..end] == Ascii(s);
    forall i | at <= i < end
      ensures tab[i] != 0
    {
      assert tab[i] == tab[at..end][i - at] && s[i - at] in s;
    }
    assert tab[end] == 0;
    FindZeroAt(tab, at, end);
  }

  lemma {:induction false} FindNoZero(tab: Bytes, at: nat)
    requires forall i :: at <= i < |tab| ==> tab[i] != 0
    ensures FindZero(tab, at) == None
    decreases |tab| - at
  {
    if at < |tab| {
      FindNoZero(tab, at + 1);
    }
  }

  /** A name that no zero ends loses its last byte; behind the table there are only empty names. */
  lemma NameUnended(tab: Bytes, at: nat)
    requires forall i :: at <= i < |tab| ==> tab[i] != 0
    ensures Name(tab, at) == if at < |tab| then tab[at..|tab| - 1] else []
  {
    FindNoZero(tab, at);
  }

  /** A section of the right type whose name is in the table has the role of that name. */
  lemma RoleRead(s: Section, a: Bytes, name: string, z: Bytes)
    requires s.kind == 1 && s.name == |a| && '\0' !in name && forall c :: c in name ==> c as int < 256
    ensures var role := RoleOf(s, a + Ascii(name) + [0] + z);
            && (name == ".sysdirs" ==> role == SysDirs)
            && (name == ".sysdirslen" ==> role == SysDirsLen)
            && (name == ".ldsocache" ==> role == LdSoCache)
            && (name == ".gccrelocprefix" ==> role == GccRelocPrefix)
            && (name !in {".sysdirs", ".sysdirslen", ".ldsocache", ".gccrelocprefix"} ==> role == Other)
  {
    NameAt(a, name, z, a + Ascii(name) + [0] + z);
    NamesDiffer(name, ".sysdirs");
    NamesDiffer(name, ".sysdirslen");
    NamesDiffer(name, ".ldsocache");
    NamesDiffer(name, ".gccrelocprefix");
    NamesDiffer(".sysdirs", ".sysdirslen");
    NamesDiffer(".ldsocache", ".gccrelocprefix");
  }

  lemma NamesDiffer(s: string, t: string)
    requires forall c :: c in s || c in t ==> c as int < 256
    ensures Ascii(s) == Ascii(t) <==> s == t
  {
    if Ascii(s) == Ascii(t) {
      forall i | 0 <= i < |s|
        ensures s[i] == t[i]
      {
        assert s[i] in s && t[i] in t && Ascii(s)[i] == s[i] as int && Ascii(t)[i] == t[i] as int;
      }
    }
  }

  lemma SamePlan(p: Plan, q: Plan)
    requires p.interp == q.interp && p.word == q.word && |p.sections| == |q.sections| && |p.roles| == |q.roles|
    requires forall i :: 0 <= i < |p.sections| ==> p.sections[i] == q.sections[i]
    requires forall i :: 0 <= i < |p.roles| ==> p.roles[i] == q.roles[i]
    ensures p == q
  {
    assert p.sections == q.sections && p.roles == q.roles;
  }
}
