/**
 A small well-laid file, built field by field, with two or three section headers counted: its directory list fills the
 section to the last byte, so that the closing zero is written over the byte behind.
 */
module SampleElf {
  import opened Sequences
  import opened Patching
  import opened Relocation
  import opened Overruns
  import opened ElfLayout

  // ---- headers ----

  function SectionText(s: Section): (r: Bytes)
    ensures |r| == 40
  {
    SectionBytes(SectionHeader(s.name, s.kind, 0, 0, s.offset, s.size, 0, 0, 0, 0), false, false)
  }

  function Header(count: Byte): Elf {
    Elf(false, false, 0, 0, 0, 64, 40, count, 0)
  }

  lemma SectionParsed(s: Section, count: Byte)
    requires s.name < 256 && s.kind < 256 && s.offset < 256 && s.size < 256
    ensures SectionOf(SectionText(s), Header(count)) == Some(s)
  {
    Powers();
    SectionReadBack(SectionHeader(s.name, s.kind, 0, 0, s.offset, s.size, 0, 0, 0, 0), Header(count));
  }

  function FileHead(count: Byte): FileHeader {
    FileHeader(0, 0, 0, 64, 0, 52, 0, 0, 40, count, 0)
  }

  /** The header of a 32-bit file, and a gap. */
  function HeadText(count: Byte): (r: Bytes)
    ensures |r| == 64
  {
    HeadBytes(FileHead(count), false, false) + Zeros(12)
  }

  // ---- the file ----

  const TAB := Section(0, 3, 184, 22)
  const DIRS := Section(1, 1, 206, 1)
  const LENS := Section(10, 1, 208, 4)

  function Sections(): seq<Section> {
    [TAB, DIRS, LENS]
  }

  function Names(): (r: Bytes)
    ensures |r| == 22
  {
    [0] + Ascii(".sysdirs") + [0] + Ascii(".sysdirslen") + [0]
  }

  /** One directory, "a", without a zero after it; a byte between the sections; and room for one length. */
  function Sample(count: Byte): (r: Bytes)
    ensures |r| == 212
  {
    HeadText(count) + SectionText(TAB) + SectionText(DIRS) + SectionText(LENS) + Names() + [97] + [255] + Zeros(4)
  }

  /** The parts of the file, by their sizes. */
  lemma EightParts(h: Bytes, x: Bytes, y: Bytes, z: Bytes, n: Bytes, d: Bytes, f: Bytes, e: Bytes)
    requires |h| == 64 && |x| == |y| == |z| == 40 && |n| == 22 && |d| == |f| == 1 && |e| == 4
    ensures var b := h + x + y + z + n + d + f + e;
            && b[..64] == h && b[64..104] == x && b[104..144] == y && b[144..184] == z
            && b[184..206] == n && b[206..207] == d && b[207] == f[0]
  {
  }

  lemma Slices(count: Byte)
    ensures var b := Sample(count);
            && b[..64] == HeadText(count)
            && ReadAt(b, 64, 40) == SectionText(TAB) && ReadAt(b, 104, 40) == SectionText(DIRS)
              && ReadAt(b, 144, 40) == SectionText(LENS)
            && ReadAt(b, 184, 22) == Names() && ReadAt(b, 206, 1) == [97] && b[207] == 255
  {
    EightParts(HeadText(count), SectionText(TAB), SectionText(DIRS), SectionText(LENS), Names(), [97], [255],
               Zeros(4));
  }

  lemma SampleElf(count: Byte)
    ensures Arch(Sample(count)) == Some(false) && ReadElf(Sample(count)) == Header(count)
  {
    var b := Sample(count);
    Slices(count);
    Powers();
    assert b == HeadBytes(FileHead(count), false, false) + b[52..] by {
      assert b[..64][..52] == HeadBytes(FileHead(count), false, false);
    }
    HeaderReadBack(FileHead(count), false, false, b[52..]);
  }

  lemma SampleSections(count: Byte, i: nat)
    requires i < 3
    ensures SectionAt(Sample(count), Header(count), i) == Some(Sections()[i])
  {
    Slices(count);
    if i == 0 {
      ParsedAt(Sample(count), count, 0, TAB, 64);
    } else if i == 1 {
      ParsedAt(Sample(count), count, 1, DIRS, 104);
    } else {
      ParsedAt(Sample(count), count, 2, LENS, 144);
    }
  }

  lemma ParsedAt(b: Bytes, count: Byte, i: nat, s: Section, at: nat)
    requires s.name < 256 && s.kind < 256 && s.offset < 256 && s.size < 256 && at == 64 + i * 40
    requires ReadAt(b, at, 40) == SectionText(s)
    ensures SectionAt(b, Header(count), i) == Some(s)
  {
    SectionParsed(s, count);
  }

  // ---- the names ----

  lemma SampleNames()
    ensures Name(Names(), 1) == Ascii(".sysdirs") && Name(Names(), 10) == Ascii(".sysdirslen")
  {
    assert Names() == [0] + Ascii(".sysdirs") + [0] + (Ascii(".sysdirslen") + [0]);
    NameAt([0], ".sysdirs", Ascii(".sysdirslen") + [0], Names());
    var a := [0] + Ascii(".sysdirs") + [0];
    assert Names() == a + Ascii(".sysdirslen") + [0] + [];
    NameAt(a, ".sysdirslen", [], Names());
  }

  lemma SampleRoles()
    ensures RoleOf(TAB, Names()) == Other && RoleOf(DIRS, Names()) == SysDirs && RoleOf(LENS, Names()) == SysDirsLen
  {
    SampleNames();
    assert |Ascii(".sysdirs")| != |Ascii(".sysdirslen")|;
  }

  // ---- the plan ----

  function SamplePlan(count: nat): Plan
    requires count <= 3
  {
    Plan(NoInterp, Sections()[..count], [Other, SysDirs, SysDirsLen][..count], 4)
  }

  lemma SampleTab(count: Byte)
    requires count == 2 || count == 3
    ensures Strtab(Sample(count), Header(count)) == Names()
  {
    SampleSections(count, 0);
    Slices(count);
  }

  lemma SampleSection(count: Byte, i: nat)
    requires i < count && (count == 2 || count == 3)
    ensures SectionOrNone(Sample(count), Header(count), i) == Sections()[i]
    ensures RoleOf(SectionOrNone(Sample(count), Header(count), i), Strtab(Sample(count), Header(count))) ==
            SamplePlan(count).roles[i]
  {
    SampleSections(count, i);
    SampleTab(count);
    SampleRoles();
  }

  lemma SamplePlanned(count: Byte)
    requires count == 2 || count == 3
    ensures PlanOf(Sample(count)) == SamplePlan(count)
  {
    var p := PlanOf(Sample(count));
    SampleElf(count);
    forall i: nat | i < count as nat
      ensures p.sections[i] == Sections()[i] && p.roles[i] == SamplePlan(count).roles[i]
    {
      SampleSection(count, i);
    }
    SamePlan(p, SamplePlan(count));
  }

  lemma SampleRegions(count: Byte, n: nat)
    requires count == 2 || count == 3
    ensures RegionNo(SamplePlan(count), n) == if n == 2 then Some(Region(206, 1)) else if n == 3 && count == 3
              then Some(Region(208, 4)) else None
  {
  }

  lemma SamplePlaced(count: Byte)
    requires count == 2 || count == 3
    ensures WellPlaced(SamplePlan(count), Sample(count))
  {
    forall n: nat
      ensures InPlace(SamplePlan(count), Sample(count), n)
    {
      SampleRegions(count, n);
    }
    forall m: nat, n: nat | m != n
      ensures ApartNo(SamplePlan(count), m, n)
    {
      SampleRegions(count, m);
      SampleRegions(count, n);
    }
  }

  /** Headers, tables and names end where the first region starts. */
  lemma BehindHeaders(count: Byte, b: Bytes, r: Region)
    requires count <= 3 && |b| >= 64 && ReadElf(b) == Header(count) && SectionAt(b, Header(count), 0) == Some(TAB)
    requires r.offset >= 206
    ensures OffHeaders(b, r)
  {
  }

  lemma SampleLaid(count: Byte, c: Config)
    requires !c.wide && (count == 2 || count == 3)
    ensures WellLaid(c, Sample(count))
  {
    SampleElf(count);
    SamplePlanned(count);
    SamplePlaced(count);
    forall i: nat | i < count as nat
      ensures SectionAt(Sample(count), Header(count), i).Some?
    {
      SampleSections(count, i);
    }
    SampleSections(count, 0);
    forall n: nat
      ensures OffHeadersNo(Sample(count), SamplePlan(count), n)
    {
      SampleRegions(count, n);
      if n == 2 || (n == 3 && count == 3) {
        BehindHeaders(count, Sample(count), RegionNo(SamplePlan(count), n).value);
      }
    }
  }

  // ---- what happens to it ----

  lemma SampleDirs(c: Config)
    requires GoodPlaceholder(c.swap.placeholder)
    ensures var p := SamplePlan(3);
            && HasDirs(p) && DirsSection(p) == DIRS && LensSection(p) == LENS && FitsFrom(c, p, Sample(3), 0)
            && DirsText(c, p, Sample(3)) == [97, 0] && |LensText(c, p, Sample(3))| == 4
  {
    var p := SamplePlan(3);
    Slices(3);
    assert Last(p.roles, SysDirs) == Some(1) && Last(p.roles, SysDirsLen) == Some(2);
    SplitFree([97], 0);
    assert PathsOf([97]) == [[97]] by {
      assert [[97]][1..] == [];
    }
    assert c.swap.placeholder[0] == HASH;
    assert Sub(c.swap, [97]) == [97] by {
      assert [97][1..] == [];
    }
    assert [[97]][1..] == [];
    assert SubAll(c.swap, [[97]]) == [[97]];
    assert Terminated([[97]]) == [97, 0];
  }

  /** The file is reported done although a byte outside all sections was overwritten. */
  lemma DoneButOverrun(c: Config)
    requires !c.wide && GoodPlaceholder(c.swap.placeholder)
    ensures var b := Sample(3);
            && WellLaid(c, b) && Relocate(c, b).1 == Done
            && |Relocate(c, b).0| >= |b| && b[207] == 255 && Relocate(c, b).0[207] == 0
            && !Covered(PlanOf(b), All(PlanOf(b)), 207)
  {
    SampleLaid(3, c);
    SampleElf(3);
    SamplePlanned(3);
    SampleDirs(c);
    Slices(3);
    NotInside(3);
    Overwritten(c, Sample(3), SamplePlan(3));
  }

  lemma Overwritten(c: Config, b: Bytes, p: Plan)
    requires WellLaid(c, b) && PlanOf(b) == p && p == SamplePlan(3) && ReadElf(b) == Header(3) && |b| == 212
    requires HasDirs(p) && DirsSection(p) == DIRS && LensSection(p) == LENS && FitsFrom(c, p, b, 0)
    requires DirsText(c, p, b) == [97, 0] && |LensText(c, p, b)| == 4 && !Covered(p, All(p), 207)
    ensures Relocate(c, b).1 == Done && |Relocate(c, b).0| >= |b| && Relocate(c, b).0[207] == 0
  {
    OverrunExactly(c, b);
    var b2 := BeforeDirs(c, b);
    TwoBytes(c, p, Header(3), b, b2);
  }

  /** Without the header of the lengths, the same file makes the program raise its exception. */
  lemma RaisedWithoutLengths(c: Config)
    requires !c.wide && GoodPlaceholder(c.swap.placeholder)
    ensures WellLaid(c, Sample(2)) && Relocate(c, Sample(2)).1 == Raised
  {
    SampleLaid(2, c);
    SamplePlanned(2);
    LengthsGone(c, Sample(2), SamplePlan(2));
    RaisedExactly(c, Sample(2));
  }

  lemma LengthsGone(c: Config, b: Bytes, p: Plan)
    requires p == SamplePlan(2)
    ensures Fair(p) && FitsFrom(c, p, b, 0) && LengthsMissing(p)
  {
    assert p.roles == [Other, SysDirs];
    assert Last(p.roles, SysDirs) == Some(1) && Last(p.roles, SysDirsLen) == None;
  }

  lemma NotInside(count: Byte)
    requires count == 2 || count == 3
    ensures !Covered(SamplePlan(count), All(SamplePlan(count)), 207)
  {
    var p := SamplePlan(count);
    forall n: nat | RegionNo(p, n).Some?
      ensures !Inside(RegionNo(p, n).value, 207)
    {
      assert n == 2 || n == 3;
    }
  }
}
