/** Which texts fit, which interpreter is meant, and which files are left alone. */
module RelocatedTexts {
  import opened Sequences
  import opened Patching
  import opened Relocation

  lemma {:induction false} StripEnd(s: Bytes)
    ensures var t := StripRight(s, 0); t == [] || t[|t| - 1] != 0
    decreases |s|
  {
    if s != [] && s[|s| - 1] == 0 {
      StripEnd(s[..|s| - 1]);
    }
  }

  /** A text fits exactly if, written into its place, it has the size of the place and still ends in a zero. */
  lemma TextFitsExactly(w: Swap, text: Bytes, size: nat)
    requires size > 0
    ensures TextFits(w, text, size) <==> |PadText(w, text, size)| == size && PadText(w, text, size)[size - 1] == 0
  {
    StripEnd(Sub(w, text));
  }

  /** The interpreter is rewritten exactly if the new path and a zero fit into its place; else the file stays. */
  lemma InterpreterExactly(c: Config, b: Bytes, elf: Elf, offset: nat, filesz: nat)
    requires FindInterp(b, elf, 0) == Interp(offset, filesz) && filesz > 0 && !HostPath(ReadAt(b, offset, 11))
    requires offset + filesz <= |b| && c.dlPath != [] && c.dlPath[|c.dlPath| - 1] != 0
    ensures var (b', s) := ChangeInterpreter(c, b, elf);
            && (s == Done <==> |Padded(c.dlPath, filesz)| == filesz && Padded(c.dlPath, filesz)[filesz - 1] == 0)
            && (s == Done ==> |b'| == |b| && c.dlPath + [0] <= b'[offset..offset + filesz])
            && (s != Done ==> s == Failed && b' == b)
  {
    if |c.dlPath| < filesz {
      PathWritten(b, c.dlPath, offset, filesz);
    }
  }

  lemma PathWritten(b: Bytes, path: Bytes, offset: nat, size: nat)
    requires |path| < size && offset + size <= |b|
    ensures var b' := WriteAt(b, offset, Padded(path, size));
            |b'| == |b| && path + [0] <= b'[offset..offset + size]
  {
    WriteInFile(b, offset, Padded(path, size));
    assert WriteAt(b, offset, Padded(path, size))[offset..offset + size] == Padded(path, size);
    assert Padded(path, size)[..|path| + 1] == path + [0];
  }

  /** An interpreter of the host stays. */
  lemma HostInterpreterStays(c: Config, b: Bytes, elf: Elf, offset: nat, filesz: nat, dir: string)
    requires FindInterp(b, elf, 0) == Interp(offset, filesz)
    requires dir in {"/lib/", "/lib64/", "/lib32/", "/usr/lib32/", "/usr/lib64/"} && Ascii(dir) <= ReadAt(b, offset, 11)
    ensures ChangeInterpreter(c, b, elf) == (b, Done)
  {
  }

  /** All other paths are not of the host: the new SDK may well lie in /usr/local/lib. */
  lemma NoOtherHost(fname: Bytes)
    requires forall dir :: dir in {"/lib/", "/lib64/", "/lib32/", "/usr/lib32/", "/usr/lib64/"} ==>
               !(Ascii(dir) <= fname)
    ensures !HostPath(fname)
  {
  }

  /** The interpreter is the first program header of type 3, and all before it are readable. */
  lemma {:induction false} FirstInterpreter(b: Bytes, elf: Elf, i: nat)
    ensures match FindInterp(b, elf, i)
            case NoInterp => forall j :: i <= j < elf.phnum ==> NotInterp(b, elf, j)
            case Malformed =>
              exists n :: i <= n < elf.phnum && ProgramAt(b, elf, n).None?
                  && forall j :: i <= j < n ==> NotInterp(b, elf, j)
            case Interp(offset, filesz) =>
              exists n :: i <= n < elf.phnum && ProgramAt(b, elf, n) == Some(Program(3, offset, filesz))
                  && forall j :: i <= j < n ==> NotInterp(b, elf, j)
    decreases elf.phnum - i
  {
    if i < elf.phnum && NotInterp(b, elf, i) {
      FirstInterpreter(b, elf, i + 1);
    }
  }

  predicate NotInterp(b: Bytes, elf: Elf, j: nat) {
    ProgramAt(b, elf, j).Some? && ProgramAt(b, elf, j).value.kind != 3
  }

  /** Files that are no ELF files, or of the other width, are left alone. */
  lemma OthersStay(c: Config, b: Bytes)
    requires |b| < 64 || b[0] != 0x7f || b[4] != if c.wide then 2 else 1
    ensures Relocate(c, b) == (b, Done)
  {
  }

  /** The blocks of a section are of 4096 bytes. */
  lemma BlockSize(w: Swap, text: Bytes, j: nat)
    requires BlocksFit(w, text) && (j + 1) * 4096 <= |text|
    ensures |PadBlocks(w, text)| == |text|
    ensures PadBlocks(w, text)[j * 4096..(j + 1) * 4096] == PadText(w, text[j * 4096..(j + 1) * 4096], 4096)
  {
    BlockAt(w, text, j);
  }
}
