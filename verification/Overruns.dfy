/** What the relocator does when the new directories, or their lengths, are longer than the sections they are for. */
module Overruns {
  import opened Sequences
  import opened Patching
  import opened Relocation

  /** Both directory sections are there. */
  ghost predicate HasDirs(p: Plan) {
    Last(p.roles, SysDirs).Some? && Last(p.roles, SysDirsLen).Some?
  }

  function DirsSection(p: Plan): Section
    requires Fair(p) && Last(p.roles, SysDirs).Some?
  {
    p.sections[Last(p.roles, SysDirs).value]
  }

  function LensSection(p: Plan): Section
    requires Fair(p) && Last(p.roles, SysDirsLen).Some?
  {
    p.sections[Last(p.roles, SysDirsLen).value]
  }

  /** What is written at the two sections, fitting or not. */
  function DirsText(c: Config, p: Plan, b: Bytes): Bytes
    requires Fair(p) && Last(p.roles, SysDirs).Some?
  {
    Terminated(SubAll(c.swap, PathsOf(Content(b, RegionOf(DirsSection(p))))))
  }

  function LensText(c: Config, p: Plan, b: Bytes): Bytes
    requires Fair(p) && Last(p.roles, SysDirs).Some?
  {
    Lengths(SubAll(c.swap, PathsOf(Content(b, RegionOf(DirsSection(p))))), p.word)
  }

  /** A text written at an offset reaches past the end of the file. */
  predicate Grows(b: Bytes, off: nat, text: Bytes) {
    off + |text| > |b|
  }

  ghost predicate KeepsOutside(p: Plan, b: Bytes, b': Bytes)
    requires Fair(p)
  {
    |b'| >= |b| && forall k: nat :: k < |b| && !Covered(p, All(p), k) ==> b'[k] == b[k]
  }

  /** The byte that the two writes leave at k, the lengths being written last. */
  function WrittenByte(c: Config, p: Plan, b: Bytes, k: nat): Byte
    requires Fair(p) && Last(p.roles, SysDirs).Some? && Last(p.roles, SysDirsLen).Some? && k < |b|
  {
    var s, t, x, y := DirsSection(p), LensSection(p), DirsText(c, p, b), LensText(c, p, b);
    if t.offset <= k < t.offset + |y| then y[k - t.offset]
    else if s.offset <= k < s.offset + |x| then x[k - s.offset]
    else b[k]
  }

  /** Wherever the texts run out of the regions they happen to agree with the bytes that are there. */
  ghost predicate OverrunsMatch(c: Config, p: Plan, b: Bytes)
    requires Fair(p) && HasDirs(p)
  {
    forall k: nat :: k < |b| && !Covered(p, All(p), k) ==> WrittenByte(c, p, b, k) == b[k]
  }

  lemma WriteBytes(b: Bytes, off: nat, data: Bytes)
    requires off <= |b|
    ensures |WriteAt(b, off, data)| == if off + |data| > |b| then off + |data| else |b|
    ensures forall k: nat :: k < |b| ==> WriteAt(b, off, data)[k] == if off <= k < off + |data| then data[k - off]
              else b[k]
  {
  }

  lemma CoveredByAll(p: Plan, n: nat, r: Region, k: nat)
    requires Fair(p) && RegionNo(p, n) == Some(r) && Inside(r, k)
    ensures Covered(p, All(p), k)
  {
    assert n in All(p);
  }

  /** Before the end of the loop nothing outside the regions has changed, and the directories are as they were. */
  lemma BeforeDirs(c: Config, b: Bytes) returns (b2: Bytes)
    requires WellLaid(c, b) && FitsFrom(c, PlanOf(b), b, 0) && HasDirs(PlanOf(b))
    ensures var p, elf := PlanOf(b), ReadElf(b);
            && p.word == Word(elf) && Shows(c, p, b, b2, DoneAll(p.roles))
            && var found := Found(Some(DirsOf(b, DirsSection(p))), Some(LensSection(p).offset));
               var (b3, status) := WriteDirs(c, b2, elf, found);
               status == Done && Relocate(c, b) == (b3, if |b3| != |b| then Exit else ChangeInterpreter(c, b, elf).1)
  {
    var found;
    b2, found := LoopDone(c, b);
  }

  /** Two writes, the first padded to the size of its region. */
  lemma PaddedThenPlain(b: Bytes, r: Region, x: Bytes, off: nat, y: Bytes)
    requires r.offset + r.size <= |b| && off <= |b|
    ensures var b' := WriteAt(WriteAt(b, r.offset, Padded(x, r.size)), off, y);
            && |b'| >= |b| && (|b'| != |b| <==> Grows(b, r.offset, x) || Grows(b, off, y))
            && forall k: nat :: k < |b| && !Inside(r, k) ==>
                 b'[k] == if off <= k < off + |y| then y[k - off] else if r.offset <= k < r.offset + |x|
                     then x[k - r.offset] else b[k]
  {
    WriteBytes(b, r.offset, Padded(x, r.size));
    WriteBytes(WriteAt(b, r.offset, Padded(x, r.size)), off, y);
  }

  /** Bytes outside the regions are as in the beginning when the directories are written. */
  lemma OutsideSame(c: Config, p: Plan, b: Bytes, b2: Bytes, k: nat)
    requires Fair(p) && Shows(c, p, b, b2, DoneAll(p.roles)) && k < |b| && !Covered(p, All(p), k)
    ensures b2[k] == b[k]
  {
    if Covered(p, DoneAll(p.roles), k) {
      CoveredAll(p, DoneAll(p.roles), k);
    }
  }

  lemma DirsPlaced(p: Plan, b: Bytes)
    requires WellPlaced(p, b) && HasDirs(p)
    ensures var s, t := DirsSection(p), LensSection(p);
            s.offset + s.size <= |b| && t.offset <= |b|
    ensures forall k: nat :: Inside(RegionOf(DirsSection(p)), k) ==> Covered(p, All(p), k)
  {
    var m, n := Last(p.roles, SysDirs).value, Last(p.roles, SysDirsLen).value;
    var r := RegionOf(DirsSection(p));
    assert RegionNo(p, m + 1) == Some(r) && RegionNo(p, n + 1) == Some(RegionOf(LensSection(p)));
    assert InPlace(p, b, m + 1) && InPlace(p, b, n + 1);
    forall k: nat | Inside(r, k)
      ensures Covered(p, All(p), k)
    {
      CoveredByAll(p, m + 1, r, k);
    }
  }

  lemma TwoBytes(c: Config, p: Plan, elf: Elf, b: Bytes, b2: Bytes)
    requires WellPlaced(p, b) && HasDirs(p) && p.word == Word(elf) && Shows(c, p, b, b2, DoneAll(p.roles))
    ensures var s, t, x, y := DirsSection(p), LensSection(p), DirsText(c, p, b), LensText(c, p, b);
            var b3 := WriteDirs(c, b2, elf, Found(Some(DirsOf(b, s)), Some(t.offset))).0;
            && |b3| >= |b| && (|b3| != |b| <==> Grows(b, s.offset, x) || Grows(b, t.offset, y))
            && forall k: nat :: k < |b| && !Covered(p, All(p), k) ==> b3[k] == WrittenByte(c, p, b, k)
  {
    var s, t, x, y := DirsSection(p), LensSection(p), DirsText(c, p, b), LensText(c, p, b);
    var b3 := WriteDirs(c, b2, elf, Found(Some(DirsOf(b, s)), Some(t.offset))).0;
    assert b3 == WriteAt(WriteAt(b2, s.offset, Padded(x, s.size)), t.offset, y) by {
      WritesDirs(c, b2, elf, Found(Some(DirsOf(b, s)), Some(t.offset)),
                 SubAll(c.swap, PathsOf(Content(b, RegionOf(s)))));
    }
    DirsPlaced(p, b);
    PaddedThenPlain(b2, RegionOf(s), x, t.offset, y);
    forall k: nat | k < |b| && !Covered(p, All(p), k)
      ensures b3[k] == WrittenByte(c, p, b, k)
    {
      assert b2[k] == b[k] by {
        OutsideSame(c, p, b, b2, k);
      }
      assert !Inside(RegionOf(s), k);
    }
  }

  /**
   The whole file, fitting or not: each of the other regions gets the text it should, and all other bytes are kept;
   then the directories, and last the lengths, are written over whatever is there.
   */
  lemma OverrunBytes(c: Config, b: Bytes) returns (b2: Bytes)
    requires WellLaid(c, b) && FitsFrom(c, PlanOf(b), b, 0) && HasDirs(PlanOf(b))
    ensures Shows(c, PlanOf(b), b, b2, DoneAll(PlanOf(b).roles))
    ensures var p := PlanOf(b);
            var s := DirsSection(p);
            Relocate(c, b).0 == WriteAt(WriteAt(b2, s.offset, Padded(DirsText(c, p, b), s.size)),
                                        LensSection(p).offset, LensText(c, p, b))
  {
    var p, elf := PlanOf(b), ReadElf(b);
    var s, t := DirsSection(p), LensSection(p);
    b2 := BeforeDirs(c, b);
    WritesDirs(c, b2, elf, Found(Some(DirsOf(b, s)), Some(t.offset)), SubAll(c.swap, PathsOf(Content(b, RegionOf(s)))));
  }

  /**
   A well-laid file with both directory sections: it grows, and is reported for it, exactly when one of the two texts
   reaches past its end; and the bytes outside the regions are kept exactly when whatever runs over agrees with them.
   */
  lemma OverrunExactly(c: Config, b: Bytes)
    requires WellLaid(c, b) && FitsFrom(c, PlanOf(b), b, 0) && HasDirs(PlanOf(b))
    ensures var p, (b', status) := PlanOf(b), Relocate(c, b);
            && (status == Exit <==>
                  || Grows(b, DirsSection(p).offset, DirsText(c, p, b))
                  || Grows(b, LensSection(p).offset, LensText(c, p, b)))
            && (status != Exit ==> status == ChangeInterpreter(c, b, ReadElf(b)).1)
            && (KeepsOutside(p, b, b') <==> OverrunsMatch(c, p, b))
  {
    var p, elf := PlanOf(b), ReadElf(b);
    var b2 := BeforeDirs(c, b);
    TwoBytes(c, p, elf, b, b2);
    InterpShows(c, p, elf, b);
  }

  /** Texts that fit run over nothing. */
  lemma FittingMatches(c: Config, p: Plan, b: Bytes)
    requires Fair(p) && HasDirs(p) && DirsFit(c, p, b)
    ensures OverrunsMatch(c, p, b)
  {
    var m, n := Last(p.roles, SysDirs).value, Last(p.roles, SysDirsLen).value;
    var s, t := DirsSection(p), LensSection(p);
    forall k: nat | k < |b| && !Covered(p, All(p), k)
      ensures WrittenByte(c, p, b, k) == b[k]
    {
      if Inside(RegionOf(s), k) {
        CoveredByAll(p, m + 1, RegionOf(s), k);
      }
      if Inside(RegionOf(t), k) {
        CoveredByAll(p, n + 1, RegionOf(t), k);
      }
    }
  }

  /** The exception is raised exactly when every section fits and directories come without their lengths. */
  lemma RaisedExactly(c: Config, b: Bytes)
    requires WellLaid(c, b)
    ensures Relocate(c, b).1 == Raised <==> FitsFrom(c, PlanOf(b), b, 0) && LengthsMissing(PlanOf(b))
  {
    var p := PlanOf(b);
    Relocated(c, b);
    if FitsFrom(c, p, b, 0) && HasDirs(p) {
      OverrunExactly(c, b);
      InterpShows(c, p, ReadElf(b), b);
    }
  }
}
