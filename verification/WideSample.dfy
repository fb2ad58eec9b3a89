/**
 A small 64-bit file, of either byte order, with an interpreter and a loader cache path, and what it is after its SDK
 was installed.
 */
module WideSample {
  import opened Sequences
  import opened Patching
  import opened Relocation
  import opened ElfLayout

  const HEAD := FileHeader(62, 0, 64, 120, 0, 64, 56, 1, 64, 2, 0)
  const INTERP := ProgramHeader(3, 260, 0, 0, 32, 32, 4, 1)
  const TAB := SectionHeader(0, 3, 0, 0, 248, 12, 0, 0, 1, 0)
  const CACHE := SectionHeader(1, 1, 0, 0, 292, 64, 0, 0, 1, 0)

  /** Section names: the empty one, and that of the loader cache. */
  function Names(): (r: Bytes)
    ensures |r| == 12
  {
    [0] + Ascii(".ldsocache") + [0]
  }

  /** The interpreter the SDK was built with. */
  function Built(): (r: Bytes)
    ensures |r| == 32
  {
    Padded(Ascii("/opt/sdk/ld.so"), 32)
  }

  /** The text of the loader cache section: the placeholder, and zeros. */
  function Sample(big: bool, placeholder: Bytes): (r: Bytes)
    requires |placeholder| <= 64
    ensures |r| == 356
  {
    Front(big) + Built() + Padded(placeholder, 64)
  }

  /** Everything in front of the two texts. */
  function Front(big: bool): (r: Bytes)
    ensures |r| == 260
  {
    HeadBytes(HEAD, true, big) + ProgramBytes(INTERP, true, big) + SectionBytes(TAB, true, big) +
    SectionBytes(CACHE, true, big) + Names()
  }

  lemma FrontParts(a: Bytes, p: Bytes, s: Bytes, t: Bytes, n: Bytes, x: Bytes)
    requires |a| == 64 && |p| == 56 && |s| == |t| == 64 && |n| == 12
    ensures var b := a + p + s + t + n + x;
            && b == a + b[64..] && b[64..120] == p && b[120..184] == s && b[184..248] == t
            && b[248..260] == n && b[260..] == x
  {
  }

  function Header(big: bool): Elf {
    ElfOf(HEAD, true, big)
  }

  lemma SampleParts(big: bool, placeholder: Bytes)
    requires |placeholder| <= 64
    ensures var b := Sample(big, placeholder);
            && b == HeadBytes(HEAD, true, big) + b[64..]
            && ReadAt(b, 64, 56) == ProgramBytes(INTERP, true, big)
            && ReadAt(b, 120, 64) == SectionBytes(TAB, true, big)
            && ReadAt(b, 184, 64) == SectionBytes(CACHE, true, big)
            && ReadAt(b, 248, 12) == Names()
            && ReadAt(b, 260, 32) == Built() && ReadAt(b, 292, 64) == Padded(placeholder, 64)
  {
    var b, x := Sample(big, placeholder), Built() + Padded(placeholder, 64);
    FrontParts(HeadBytes(HEAD, true, big), ProgramBytes(INTERP, true, big), SectionBytes(TAB, true, big),
               SectionBytes(CACHE, true, big), Names(), x);
    assert b == HeadBytes(HEAD, true, big) + ProgramBytes(INTERP, true, big) + SectionBytes(TAB, true, big) +
                SectionBytes(CACHE, true, big) + Names() + x;
    assert b[260..292] == b[260..][..32] == Built() && b[292..356] == b[260..][32..] == Padded(placeholder, 64);
  }

  lemma SampleElf(big: bool, placeholder: Bytes)
    requires |placeholder| <= 64
    ensures Arch(Sample(big, placeholder)) == Some(true) && ReadElf(Sample(big, placeholder)) == Header(big)
  {
    SampleParts(big, placeholder);
    Powers();
    HeaderReadBack(HEAD, true, big, Sample(big, placeholder)[64..]);
  }

  lemma ProgramRead(b: Bytes, big: bool)
    requires ReadAt(b, 64, 56) == ProgramBytes(INTERP, true, big)
    ensures FindInterp(b, Header(big), 0) == Interp(260, 32)
  {
    Powers();
    ProgramReadBack(INTERP, Header(big));
    assert ProgramAt(b, Header(big), 0) == Some(Program(3, 260, 32));
  }

  lemma SectionRead(b: Bytes, big: bool, i: nat, at: nat, h: SectionHeader)
    requires HeaderFits(h, true) && at == 120 + i * 64 && ReadAt(b, at, 64) == SectionBytes(h, true, big)
    ensures SectionAt(b, Header(big), i) == Some(Section(h.name, h.kind, h.offset, h.size))
  {
    SectionReadBack(h, Header(big));
  }

  function Sections(): seq<Section> {
    [Section(0, 3, 248, 12), Section(1, 1, 292, 64)]
  }

  lemma SectionsRead(big: bool, placeholder: Bytes)
    requires |placeholder| <= 64
    ensures var b := Sample(big, placeholder);
            && SectionAt(b, Header(big), 0) == Some(Sections()[0])
            && SectionAt(b, Header(big), 1) == Some(Sections()[1])
            && Strtab(b, Header(big)) == Names()
  {
    SampleParts(big, placeholder);
    Powers();
    SectionRead(Sample(big, placeholder), big, 0, 120, TAB);
    SectionRead(Sample(big, placeholder), big, 1, 184, CACHE);
  }

  lemma NamesRead()
    ensures RoleOf(Sections()[0], Names()) == Other && RoleOf(Sections()[1], Names()) == LdSoCache
  {
    assert Names() == [0] + Ascii(".ldsocache") + [0] + [];
    RoleRead(Sections()[1], [0], ".ldsocache", []);
  }

  function SamplePlan(): Plan {
    Plan(Interp(260, 32), Sections(), [Other, LdSoCache], 8)
  }

  lemma SamplePlanned(big: bool, placeholder: Bytes)
    requires |placeholder| <= 64
    ensures PlanOf(Sample(big, placeholder)) == SamplePlan()
  {
    SampleParts(big, placeholder);
    SampleElf(big, placeholder);
    ProgramRead(Sample(big, placeholder), big);
    SectionsRead(big, placeholder);
    PlanFrom(Sample(big, placeholder), Header(big));
  }

  lemma PlanFrom(b: Bytes, elf: Elf)
    requires |b| >= 64 && ReadElf(b) == elf && FindInterp(b, elf, 0) == Interp(260, 32) && elf.shnum == 2 && elf.wide
    requires SectionAt(b, elf, 0) == Some(Sections()[0]) && SectionAt(b, elf, 1) == Some(Sections()[1])
    requires Strtab(b, elf) == Names()
    ensures PlanOf(b) == SamplePlan()
  {
    NamesRead();
    var p := PlanOf(b);
    forall i: nat | i < 2
      ensures p.sections[i] == Sections()[i] && p.roles[i] == SamplePlan().roles[i]
    {
      assert SectionOrNone(b, elf, i) == Sections()[i];
    }
    SamePlan(p, SamplePlan());
  }

  lemma Regions(n: nat)
    ensures RegionNo(SamplePlan(), n) ==
            if n == 0 then Some(Region(260, 32)) else if n == 2 then Some(Region(292, 64)) else None
  {
  }

  lemma Placed(b: Bytes)
    requires |b| == 356
    ensures WellPlaced(SamplePlan(), b)
  {
    forall n: nat
      ensures InPlace(SamplePlan(), b, n)
    {
      Regions(n);
    }
    forall m: nat, n: nat | m != n
      ensures ApartNo(SamplePlan(), m, n)
    {
      Regions(m);
      Regions(n);
    }
  }

  lemma BehindHeaders(b: Bytes, big: bool, r: Region)
    requires |b| >= 64 && ReadElf(b) == Header(big) && SectionAt(b, Header(big), 0) == Some(Sections()[0])
    requires r.offset >= 260
    ensures OffHeaders(b, r)
  {
  }

  lemma Laid(c: Config, big: bool)
    requires c.wide && |c.swap.placeholder| <= 64
    ensures WellLaid(c, Sample(big, c.swap.placeholder))
  {
    var b := Sample(big, c.swap.placeholder);
    SampleParts(big, c.swap.placeholder);
    SampleElf(big, c.swap.placeholder);
    ProgramRead(b, big);
    SectionsRead(big, c.swap.placeholder);
    SamplePlanned(big, c.swap.placeholder);
    Placed(b);
    forall n: nat
      ensures OffHeadersNo(b, SamplePlan(), n)
    {
      Regions(n);
      if n == 0 || n == 2 {
        BehindHeaders(b, big, RegionNo(SamplePlan(), n).value);
      }
    }
  }

  // ---- the new texts ----

  lemma {:induction false} ZerosStay(w: Swap, n: nat)
    requires GoodPlaceholder(w.placeholder)
    ensures Sub(w, Zeros(n)) == Zeros(n)
    decreases n
  {
    if n > 0 {
      assert Zeros(n) == [0] + Zeros(n - 1) && Zeros(n)[0] == 0;
      assert w.placeholder[0] == HASH;
      ZerosStay(w, n - 1);
    }
  }

  /** The placeholder and zeros become the prefix and zeros. */
  lemma NewCache(w: Swap)
    requires Good(w) && |w.placeholder| <= 64 && |w.prefix| < 64
    ensures var text := Padded(w.placeholder, 64);
            TextFits(w, text, 64) && PadText(w, text, 64) == Padded(w.prefix, 64)
  {
    var n := 64 - |w.placeholder|;
    var text := w.placeholder + Zeros(n);
    assert text[|w.placeholder|..] == Zeros(n);
    ZerosStay(w, n);
    assert Sub(w, text) == w.prefix + Zeros(n);
    assert w.prefix[|w.prefix| - 1] in w.prefix;
    StripPad(w.prefix, 0, n);
  }

  lemma NotOfHost()
    ensures !HostPath(Built()[..11])
  {
    assert Built()[..11][1] == 'o' as int && Built()[..11][1] == 111;
    assert Ascii("/lib/")[1] == 108 && Ascii("/lib64/")[1] == 108 && Ascii("/lib32/")[1] == 108;
    assert Ascii("/usr/lib32/")[1] == 117 && Ascii("/usr/lib64/")[1] == 117;
  }

  /** The file after the installation: the interpreter and the loader cache are those of the new place, nothing else. */
  lemma Relocated64(c: Config, big: bool)
    requires c.wide && Good(c.swap) && |c.swap.placeholder| <= 64 && |c.swap.prefix| < 64 && |c.dlPath| < 32
    ensures Relocate(c, Sample(big, c.swap.placeholder)) ==
            (Front(big) + Padded(c.dlPath, 32) + Padded(c.swap.prefix, 64), Done)
  {
    var b, p := Sample(big, c.swap.placeholder), SamplePlan();
    SampleParts(big, c.swap.placeholder);
    SampleElf(big, c.swap.placeholder);
    SamplePlanned(big, c.swap.placeholder);
    Laid(c, big);
    NewCache(c.swap);
    Fits(c, b);
    Relocated(c, b);
    ProgramRead(b, big);
    InterpDone(c, b, Header(big));
    NewBytes(c, big, b, Relocate(c, b).0);
  }

  lemma InterpDone(c: Config, b: Bytes, elf: Elf)
    requires FindInterp(b, elf, 0) == Interp(260, 32) && ReadAt(b, 260, 32) == Built() && |b| == 356
    requires |c.dlPath| < 32
    ensures ChangeInterpreter(c, b, elf).1 == Done
  {
    assert ReadAt(b, 260, 11) == Built()[..11];
    NotOfHost();
  }

  lemma Fits(c: Config, b: Bytes)
    requires |b| == 356 && TextFits(c.swap, ReadAt(b, 292, 64), 64)
    ensures FitsFrom(c, SamplePlan(), b, 0) && DirsFit(c, SamplePlan(), b)
  {
    assert Last(SamplePlan().roles, SysDirs) == None;
  }

  lemma FrontStays(c: Config, b: Bytes, b': Bytes)
    requires |b| == 356 && Shows(c, SamplePlan(), b, b', All(SamplePlan()))
    ensures b'[..260] == b[..260]
  {
    var p := SamplePlan();
    forall k: nat | k < 260
      ensures b'[k] == b[k]
    {
      assert !Covered(p, All(p), k) by {
        forall n: nat | RegionNo(p, n).Some?
          ensures !Inside(RegionNo(p, n).value, k)
        {
          Regions(n);
        }
      }
    }
  }

  /** What the two regions are to hold. */
  lemma Wanted(c: Config, b: Bytes)
    requires Good(c.swap) && |c.swap.placeholder| <= 64 && |c.swap.prefix| < 64 && |c.dlPath| < 32
    requires |b| == 356 && ReadAt(b, 260, 32) == Built() && ReadAt(b, 292, 64) == Padded(c.swap.placeholder, 64)
    ensures RegionNo(SamplePlan(), 0) == Some(Region(260, 32)) && RegionNo(SamplePlan(), 2) == Some(Region(292, 64))
    ensures Want(c, SamplePlan(), b, 0) == Padded(c.dlPath, 32)
    ensures Want(c, SamplePlan(), b, 2) == Padded(c.swap.prefix, 64)
  {
    assert ReadAt(b, 260, 11) == Built()[..11];
    NotOfHost();
    NewCache(c.swap);
  }

  lemma NewBytes(c: Config, big: bool, b: Bytes, b': Bytes)
    requires Good(c.swap) && |c.swap.placeholder| <= 64 && |c.swap.prefix| < 64 && |c.dlPath| < 32
    requires b == Sample(big, c.swap.placeholder) && Shows(c, SamplePlan(), b, b', All(SamplePlan()))
    ensures b' == Front(big) + Padded(c.dlPath, 32) + Padded(c.swap.prefix, 64)
  {
    var p, x, y := SamplePlan(), Padded(c.dlPath, 32), Padded(c.swap.prefix, 64);
    SampleParts(big, c.swap.placeholder);
    Wanted(c, b);
    FrontStays(c, b, b');
    assert Holds(c, p, b, b', 0) && Holds(c, p, b, b', 2);
    ThreeParts(b', Front(big), x, y);
  }

  lemma ThreeParts(b: Bytes, f: Bytes, x: Bytes, y: Bytes)
    requires |b| == 356 && b[..260] == f && ReadAt(b, 260, 32) == x && ReadAt(b, 292, 64) == y
    ensures b == f + x + y
  {
  }
}
