/**
 Texts and bytes for moving an SDK: reading and writing inside a file, substituting the prefix, padding with
 zeros.
 */
module Patching {
  import opened Sequences

  type Bytes = seq<Byte>

  /** `read(n)` at an offset: short at the end of the file. */
  function ReadAt(b: Bytes, off: nat, n: nat): (r: Bytes)
    ensures |r| <= n && (off + n <= |b| ==> |r| == n)
  {
    if off >= |b| then [] else if off + n <= |b| then b[off..off + n] else b[off..]
  }

  function Zeros(n: int): (r: Bytes)
    ensures |r| == if n < 0 then 0 else n
  {
    if n <= 0 then [] else Repeat(0, n)
  }

  /** `write(data)` at an offset: a gap past the end is filled with zeros, and the file grows as needed. */
  function WriteAt(b: Bytes, off: nat, data: Bytes): Bytes {
    if |data| == 0 then b
    else
      seq(if off + |data| > |b| then off + |data| else |b|,
          k requires k >= 0 => if off <= k < off + |data| then data[k - off] else if k < |b| then b[k] else 0)
  }

  /** What is written is read back, other bytes stay, and a gap behind the old end is filled with zeros. */
  lemma WriteReadBack(b: Bytes, off: nat, data: Bytes)
    requires data != []
    ensures var b' := WriteAt(b, off, data);
            && ReadAt(b', off, |data|) == data
            && (forall k :: 0 <= k < |b| && !(off <= k < off + |data|) ==> k < |b'| && b'[k] == b[k])
            && (forall k :: |b| <= k < off ==> b'[k] == 0)
            && |b'| == if off + |data| > |b| then off + |data| else |b|
  {
    var b' := WriteAt(b, off, data);
    assert b'[off..off + |data|] == data;
  }

  function Padded(t: Bytes, n: nat): (r: Bytes)
    ensures |t| <= n ==> |r| == n
  {
    t + Zeros(n - |t|)
  }

  function Ascii(s: string): (r: Bytes)
    ensures |r| == |s|
  {
    seq(|s|, i requires 0 <= i < |s| => (s[i] as int) % 256)
  }

  const SLASH: Byte := 47
  const HASH: Byte := 35

  /** A placeholder and the installation directory that replaces it. */
  datatype Swap = Swap(placeholder: Bytes, prefix: Bytes)

  /** Every occurrence of the placeholder, scanning from the left, replaced by the prefix. */
  function Sub(w: Swap, x: Bytes): Bytes
    decreases |x|
  {
    if |x| == 0 || |w.placeholder| == 0 then x
    else if w.placeholder <= x then w.prefix + Sub(w, x[|w.placeholder|..])
    else [x[0]] + Sub(w, x[1..])
  }

  /** An absolute installation directory without '#'. */
  predicate GoodPrefix(prefix: Bytes) {
    prefix != [] && prefix[0] == SLASH && HASH !in prefix && 0 !in prefix
  }

  predicate GoodPlaceholder(p: Bytes) {
    p != [] && p[0] == HASH && p[|p| - 1] == HASH && SLASH !in p && 0 !in p
  }

  predicate Good(w: Swap) {
    GoodPlaceholder(w.placeholder) && GoodPrefix(w.prefix)
  }

  ghost predicate OccursAt(w: Swap, x: Bytes, i: nat) {
    i <= |x| && w.placeholder <= x[i..]
  }

  ghost predicate Occurs(w: Swap, x: Bytes) {
    exists i: nat :: OccursAt(w, x, i)
  }

  lemma StartsWithSlash(w: Swap, x: Bytes)
    requires Good(w) && w.placeholder <= x
    ensures Sub(w, x) != [] && Sub(w, x)[0] == SLASH
  {
  }

  /** Substitution forms no text without slashes that was not there. */
  lemma {:induction false} NotFormed(w: Swap, x: Bytes, q: Bytes)
    requires Good(w) && SLASH !in q && q <= Sub(w, x)
    ensures q <= x
    decreases |x|
  {
    if q != [] {
      if w.placeholder <= x {
        StartsWithSlash(w, x);
      } else {
        assert Sub(w, x)[1..] == Sub(w, x[1..]);
        NotFormed(w, x[1..], q[1..]);
      }
    }
  }

  lemma OccursLater(w: Swap, a: Bytes, x: Bytes, i: nat)
    requires OccursAt(w, a + x, i) && i >= |a|
    ensures Occurs(w, x)
  {
    assert (a + x)[i..] == x[i - |a|..];
    assert OccursAt(w, x, i - |a|);
  }

  /** No placeholder is left, and none is made. */
  lemma {:induction false} NoneLeft(w: Swap, x: Bytes)
    requires Good(w)
    ensures !Occurs(w, Sub(w, x))
    decreases |x|
  {
    var y := Sub(w, x);
    if Occurs(w, y) {
      var i: nat :| OccursAt(w, y, i);
      assert y[i] == HASH;
      if w.placeholder <= x {
        var rest := Sub(w, x[|w.placeholder|..]);
        NoneLeft(w, x[|w.placeholder|..]);
        assert y == w.prefix + rest;
        OccursLater(w, w.prefix, rest, i);
        assert false;
      } else {
        NoneLeft(w, x[1..]);
        if i == 0 {
          NotFormed(w, x, w.placeholder);
        } else {
          OccursLater(w, [x[0]], Sub(w, x[1..]), i);
        }
        assert false;
      }
    }
  }

  lemma {:induction false} SubNothing(w: Swap, y: Bytes)
    requires !Occurs(w, y)
    ensures Sub(w, y) == y
    decreases |y|
  {
    if y != [] {
      assert !OccursAt(w, y, 0);
      if Occurs(w, y[1..]) {
        var i: nat :| OccursAt(w, y[1..], i);
        assert y[1..][i..] == y[i + 1..];
        assert OccursAt(w, y, i + 1);
      }
      SubNothing(w, y[1..]);
    }
  }

  /** Cutting zeros off the end, or adding some, makes no placeholder. */
  lemma StillNone(w: Swap, t: Bytes, n: nat)
    requires w.placeholder != [] && 0 !in w.placeholder && !Occurs(w, t)
    ensures !Occurs(w, Padded(StripRight(t, 0), n))
  {
    var s := StripRight(t, 0);
    var y := Padded(s, n);
    if Occurs(w, y) {
      var i: nat :| OccursAt(w, y, i);
      assert forall k :: 0 <= k < |w.placeholder| ==> y[i..][k] == w.placeholder[k];
      var last := |w.placeholder| - 1;
      assert y[i + last] == w.placeholder[last];
      assert w.placeholder[last] != 0;
      assert i + last < |s|;
      forall k | 0 <= k < |w.placeholder|
        ensures t[i..][k] == w.placeholder[k]
      {
        assert y[i..][k] == y[i + k] && s[i + k] == t[i + k];
      }
      assert OccursAt(w, t, i);
    }
  }

  /** What is written over a text of a given size. */
  function PadText(w: Swap, text: Bytes, size: nat): Bytes {
    Padded(StripRight(Sub(w, text), 0), size)
  }

  predicate TextFits(w: Swap, text: Bytes, size: nat) {
    |StripRight(Sub(w, text), 0)| < size
  }

  /** A patched text has no placeholder, and patching it again changes nothing. */
  lemma PatchedText(w: Swap, text: Bytes, size: nat)
    requires Good(w) && TextFits(w, text, size)
    ensures !Occurs(w, PadText(w, text, size))
    ensures var once := PadText(w, text, size);
            |once| == size && TextFits(w, once, size) && PadText(w, once, size) == once
  {
    var t := StripRight(Sub(w, text), 0);
    var once := PadText(w, text, size);
    NoneLeft(w, text);
    StillNone(w, Sub(w, text), size);
    SubNothing(w, once);
    StripPad(t, 0, size - |t|);
  }

  /** The placeholder that the SDK is built with. */
  lemma PlaceholderIsGood()
    ensures GoodPlaceholder(Ascii("##DEFAULT_INSTALL_DIR##"))
  {
    var s := "##DEFAULT_INSTALL_DIR##";
    assert '/' !in s && '\0' !in s && s[0] == '#' && s[22] == '#';
    forall i | 0 <= i < |s|
      ensures Ascii(s)[i] == s[i] as int && s[i] in s
    {
    }
  }

  /** A prefix with the placeholder in it grows with every substitution. */
  lemma PrefixWithPlaceholderGrows(p: Bytes)
    requires GoodPlaceholder(p)
    ensures var w := Swap(p, [SLASH] + p);
            Sub(w, p) == [SLASH] + p && Sub(w, Sub(w, p)) == [SLASH, SLASH] + p
  {
    var w := Swap(p, [SLASH] + p);
    assert p[|p|..] == [] && Sub(w, []) == [];
    assert Sub(w, p) == [SLASH] + p + [];
    var once := [SLASH] + p;
    assert once[0] != p[0] && once[1..] == p;
  }

  lemma {:induction false} SubLength(w: Swap, y: Bytes)
    ensures |w.prefix| >= |w.placeholder| ==> |Sub(w, y)| >= |y|
    ensures |w.prefix| <= |w.placeholder| ==> |Sub(w, y)| <= |y|
    decreases |y|
  {
    if y != [] && w.placeholder != [] {
      if w.placeholder <= y {
        SubLength(w, y[|w.placeholder|..]);
      } else {
        SubLength(w, y[1..]);
      }
    }
  }

  /** Where there is a placeholder, substitution changes something, unless it puts the placeholder back. */
  lemma {:induction false} SubChanges(w: Swap, y: Bytes)
    requires w.placeholder != [] && w.prefix != w.placeholder && Occurs(w, y)
    ensures Sub(w, y) != y
    decreases |y|
  {
    var i: nat :| OccursAt(w, y, i);
    if w.placeholder <= y {
      var rest := Sub(w, y[|w.placeholder|..]);
      SubLength(w, y[|w.placeholder|..]);
      if |w.prefix| == |w.placeholder| {
        assert (w.prefix + rest)[..|w.placeholder|] == w.prefix && y[..|w.placeholder|] == w.placeholder;
      }
    } else {
      assert y == y[..1] + y[1..];
      OccursLater(w, y[..1], y[1..], i);
      SubChanges(w, y[1..]);
      assert Sub(w, y)[1..] == Sub(w, y[1..]);
    }
  }

  /** Substituting twice is substituting once exactly when no placeholder is left, or when it is put back each time. */
  lemma TwiceExactly(w: Swap, x: Bytes)
    requires w.placeholder != []
    ensures Sub(w, Sub(w, x)) == Sub(w, x) <==> !Occurs(w, Sub(w, x)) || w.prefix == w.placeholder
  {
    var y := Sub(w, x);
    if !Occurs(w, y) {
      SubNothing(w, y);
    } else if w.prefix != w.placeholder {
      SubChanges(w, y);
    } else {
      SameBack(w, y);
    }
  }

  lemma {:induction false} SameBack(w: Swap, y: Bytes)
    requires w.prefix == w.placeholder
    ensures Sub(w, y) == y
    decreases |y|
  {
    if y != [] && w.placeholder != [] {
      if w.placeholder <= y {
        SameBack(w, y[|w.placeholder|..]);
      } else {
        SameBack(w, y[1..]);
      }
    }
  }

  // ---- sections made of 4096-byte blocks ----

  const BLOCK := 4096

  /** Every whole block patched, the rest kept. */
  function PadBlocks(w: Swap, text: Bytes): Bytes
    decreases |text|
  {
    if |text| < BLOCK then text
    else PadText(w, text[..BLOCK], BLOCK) + PadBlocks(w, text[BLOCK..])
  }

  predicate BlocksFit(w: Swap, text: Bytes)
    decreases |text|
  {
    |text| < BLOCK || (TextFits(w, text[..BLOCK], BLOCK) && BlocksFit(w, text[BLOCK..]))
  }

  lemma {:induction false} PatchedBlocks(w: Swap, text: Bytes)
    requires Good(w) && BlocksFit(w, text)
    ensures var once := PadBlocks(w, text);
            |once| == |text| && BlocksFit(w, once) && PadBlocks(w, once) == once
    decreases |text|
  {
    if |text| >= BLOCK {
      PatchedText(w, text[..BLOCK], BLOCK);
      PatchedBlocks(w, text[BLOCK..]);
      var first, rest := PadText(w, text[..BLOCK], BLOCK), PadBlocks(w, text[BLOCK..]);
      assert (first + rest)[..BLOCK] == first && (first + rest)[BLOCK..] == rest;
    }
  }

  function BlockOf(text: Bytes, j: nat): (r: Bytes)
    requires (j + 1) * BLOCK <= |text|
    ensures |r| == BLOCK
  {
    text[j * BLOCK..(j + 1) * BLOCK]
  }

  lemma BlockShift(a: Bytes, x: Bytes, j: nat)
    requires |a| == BLOCK && j > 0 && (j + 1) * BLOCK <= |a + x|
    ensures BlockOf(a + x, j) == BlockOf(x, j - 1)
  {
    var l, r := BlockOf(a + x, j), BlockOf(x, j - 1);
    assert l == r;
  }

  /** Each block is what its own text becomes. */
  lemma {:induction false} BlockAt(w: Swap, text: Bytes, j: nat)
    requires BlocksFit(w, text) && (j + 1) * BLOCK <= |text|
    ensures |PadBlocks(w, text)| == |text|
    ensures BlockOf(PadBlocks(w, text), j) == PadText(w, BlockOf(text, j), BLOCK)
    decreases |text|
  {
    var head, tail := text[..BLOCK], text[BLOCK..];
    assert text == head + tail;
    BlocksLength(w, text);
    BlocksLength(w, tail);
    if j == 0 {
      assert BlockOf(PadBlocks(w, text), 0) == PadText(w, head, BLOCK);
    } else {
      BlockAt(w, tail, j - 1);
      BlockShift(head, tail, j);
      BlockShift(PadText(w, head, BLOCK), PadBlocks(w, tail), j);
    }
  }

  lemma {:induction false} BlocksLength(w: Swap, text: Bytes)
    requires BlocksFit(w, text)
    ensures |PadBlocks(w, text)| == |text|
    decreases |text|
  {
    if |text| >= BLOCK {
      BlocksLength(w, text[BLOCK..]);
    }
  }

  // ---- the list of system directories ----

  /** The paths before the first empty one. */
  function BeforeEmpty(parts: seq<Bytes>): seq<Bytes>
    decreases |parts|
  {
    if |parts| == 0 || |parts[0]| == 0 then [] else [parts[0]] + BeforeEmpty(parts[1..])
  }

  function PathsOf(text: Bytes): seq<Bytes> {
    BeforeEmpty(Split(text, 0))
  }

  function SubAll(w: Swap, paths: seq<Bytes>): seq<Bytes>
    decreases |paths|
  {
    if |paths| == 0 then [] else [Sub(w, paths[0])] + SubAll(w, paths[1..])
  }

  /** The paths, each followed by a zero. */
  function Terminated(paths: seq<Bytes>): Bytes
    decreases |paths|
  {
    if |paths| == 0 then [] else paths[0] + [0] + Terminated(paths[1..])
  }

  /** The n low bytes of a number, lowest first. */
  function Little(x: nat, n: nat): (r: Bytes)
    ensures |r| == n
  {
    if n == 0 then [] else [x % 256] + Little(x / 256, n - 1)
  }

  function Lengths(paths: seq<Bytes>, word: nat): (r: Bytes)
    ensures |r| == |paths| * word
    decreases |paths|
  {
    if |paths| == 0 then [] else Little(|paths[0]|, word) + Lengths(paths[1..], word)
  }

  /** Each path is substituted by itself. */
  lemma {:induction false} SubAllAt(w: Swap, paths: seq<Bytes>)
    ensures |SubAll(w, paths)| == |paths| && forall i :: 0 <= i < |paths| ==> SubAll(w, paths)[i] == Sub(w, paths[i])
    decreases |paths|
  {
    if |paths| > 0 {
      SubAllAt(w, paths[1..]);
    }
  }

  ghost predicate PlainPaths(paths: seq<Bytes>) {
    forall p :: p in paths ==> p != [] && 0 !in p
  }

  lemma {:induction false} PathsArePlain(parts: seq<Bytes>)
    requires forall p :: p in parts ==> 0 !in p
    ensures PlainPaths(BeforeEmpty(parts))
    decreases |parts|
  {
    if parts != [] && parts[0] != [] {
      assert parts[0] in parts;
      assert forall p :: p in parts[1..] ==> p in parts;
      PathsArePlain(parts[1..]);
    }
  }

  lemma {:induction false} SubIsPlain(w: Swap, x: Bytes)
    requires Good(w) && 0 !in x
    ensures 0 !in Sub(w, x) && (x != [] ==> Sub(w, x) != [])
    decreases |x|
  {
    if x != [] {
      if w.placeholder <= x {
        SubIsPlain(w, x[|w.placeholder|..]);
      } else {
        SubIsPlain(w, x[1..]);
        assert x[0] in x;
      }
    }
  }

  /** Substituted once, the paths stay plain and substituting again changes none. */
  lemma {:induction false} SubAllTwice(w: Swap, paths: seq<Bytes>)
    requires Good(w) && PlainPaths(paths)
    ensures var once := SubAll(w, paths);
            |once| == |paths| && PlainPaths(once) && SubAll(w, once) == once
    decreases |paths|
  {
    if paths != [] {
      assert paths[0] in paths;
      assert forall p :: p in paths[1..] ==> p in paths;
      SubIsPlain(w, paths[0]);
      NoneLeft(w, paths[0]);
      SubNothing(w, Sub(w, paths[0]));
      SubAllTwice(w, paths[1..]);
      var once := SubAll(w, paths);
      assert once[0] == Sub(w, paths[0]) && once[1..] == SubAll(w, paths[1..]);
      assert once == [once[0]] + once[1..];
    }
  }

  /** The list ends at the first empty path, whatever comes after it. */
  lemma {:induction false} PathsEnd(paths: seq<Bytes>, rest: Bytes)
    requires PlainPaths(paths)
    ensures PathsOf(Terminated(paths) + [0] + rest) == paths
    decreases |paths|
  {
    var text := Terminated(paths) + [0] + rest;
    if paths == [] {
      assert text == [] + [0] + rest;
      SplitFirst([], rest, 0);
    } else {
      var more := Terminated(paths[1..]) + [0] + rest;
      assert paths[0] in paths;
      assert forall p :: p in paths[1..] ==> p in paths;
      assert text == paths[0] + [0] + more;
      SplitFirst(paths[0], more, 0);
      PathsEnd(paths[1..], rest);
      assert ([paths[0]] + Split(more, 0))[1..] == Split(more, 0);
    }
  }

  /** The paths written are the paths read back, whatever zeros follow. */
  lemma {:induction false} PathsReadBack(paths: seq<Bytes>, n: nat)
    requires PlainPaths(paths)
    ensures PathsOf(Terminated(paths) + Zeros(n)) == paths
    decreases |paths|
  {
    var text := Terminated(paths) + Zeros(n);
    if paths == [] {
      assert text == Zeros(n);
      if n > 0 {
        assert text[0] == 0;
      }
    } else {
      var rest := Terminated(paths[1..]) + Zeros(n);
      assert paths[0] in paths;
      assert forall p :: p in paths[1..] ==> p in paths;
      assert text == paths[0] + [0] + rest;
      SplitFirst(paths[0], rest, 0);
      PathsReadBack(paths[1..], n);
      assert ([paths[0]] + Split(rest, 0))[1..] == Split(rest, 0);
    }
  }

  /** The new directory list of a section, and again of that one. */
  lemma PatchedDirs(w: Swap, text: Bytes, size: nat)
    requires Good(w) && |Terminated(SubAll(w, PathsOf(text)))| <= size
    ensures var paths := SubAll(w, PathsOf(text));
            var once := Padded(Terminated(paths), size);
            PathsOf(once) == paths && SubAll(w, PathsOf(once)) == paths
  {
    var paths := SubAll(w, PathsOf(text));
    SplitPartsFree(text, 0);
    PathsArePlain(Split(text, 0));
    SubAllTwice(w, PathsOf(text));
    PathsReadBack(paths, size - |Terminated(paths)|);
  }
}
