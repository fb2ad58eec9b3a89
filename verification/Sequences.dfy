/**
 Splitting and joining of sequences around a separator element, as Python's `split` and
 `join` do it for strings and byte strings. Shared by the file-name, path and pipe models.
 */
module Sequences {

  datatype Option<+T> = None | Some(value: T)

  type Byte = b: int | 0 <= b < 256

  ghost function SomeElement<T>(s: set<T>): (x: T)
    requires s != {}
    ensures x in s
  {
    var x :| x in s;
    x
  }

  /** Python's `s.split(sep)` for a one-element separator. */
  function Split<T(==)>(s: seq<T>, sep: T): (parts: seq<seq<T>>)
    ensures |parts| >= 1
  {
    if s == [] then [[]]
    else if s[0] == sep then [[]] + Split(s[1..], sep)
    else
      var rest := Split(s[1..], sep);
      [[s[0]] + rest[0]] + rest[1..]
  }

  /** Python's `s.split(sep, max)`. */
  function SplitMax<T(==)>(s: seq<T>, sep: T, max: nat): (parts: seq<seq<T>>)
    ensures 1 <= |parts| <= max + 1
    decreases |s|
  {
    if max == 0 || s == [] then [s]
    else if s[0] == sep then [[]] + SplitMax(s[1..], sep, max - 1)
    else
      var rest := SplitMax(s[1..], sep, max);
      [[s[0]] + rest[0]] + rest[1..]
  }

  predicate EndsWith(s: string, end: string) {
    |end| <= |s| && s[|s| - |end|..] == end
  }

  /** Python's `sep.join(parts)`. */
  function Join<T>(parts: seq<seq<T>>, sep: T): seq<T> {
    if |parts| == 0 then []
    else if |parts| == 1 then parts[0]
    else parts[0] + [sep] + Join(parts[1..], sep)
  }

  function Count<T(==)>(s: seq<T>, x: T): nat {
    if s == [] then 0 else (if s[0] == x then 1 else 0) + Count(s[1..], x)
  }

  /** Python's `s.rstrip(x)` for a one-element strip set. */
  function StripRight<T(==)>(s: seq<T>, x: T): (r: seq<T>)
    ensures |r| <= |s| && r <= s
    ensures |r| > 0 ==> r[|r| - 1] != x
    ensures forall i :: |r| <= i < |s| ==> s[i] == x
  {
    if |s| > 0 && s[|s| - 1] == x then StripRight(s[..|s| - 1], x) else s
  }

  /** The characters Python's `strip` removes and `\s` matches. */
  predicate IsSpace(c: char) {
    var n := c as int;
    || 0x09 <= n <= 0x0D || 0x1C <= n <= 0x20 || n == 0x85 || n == 0xA0 || n == 0x1680 || 0x2000 <= n <= 0x200A
    || n == 0x2028 || n == 0x2029 || n == 0x202F || n == 0x205F || n == 0x3000
  }

  function Repeat<T>(x: T, n: nat): (r: seq<T>)
    ensures |r| == n && forall i :: 0 <= i < n ==> r[i] == x
  {
    seq(n, _ => x)
  }

  lemma {:induction false} SplitJoin<T>(s: seq<T>, sep: T)
    ensures Join(Split(s, sep), sep) == s
  {
    if s != [] {
      SplitJoin(s[1..], sep);
      var rest := Split(s[1..], sep);
      if s[0] == sep {
        assert Split(s, sep)[1..] == rest;
      } else if |rest| > 1 {
        assert Split(s, sep)[1..] == rest[1..];
      }
    }
  }

  lemma {:induction false} SplitPartsFree<T>(s: seq<T>, sep: T)
    ensures forall p :: p in Split(s, sep) ==> sep !in p
  {
    if s != [] {
      SplitPartsFree(s[1..], sep);
    }
  }

  lemma {:induction false} SplitFree<T>(s: seq<T>, sep: T)
    requires sep !in s
    ensures Split(s, sep) == [s]
  {
    if s != [] {
      SplitFree(s[1..], sep);
      assert [s[0]] + s[1..] == s;
    }
  }

  lemma PrependFirst<T>(x: T, a: seq<seq<T>>, b: seq<seq<T>>)
    requires a != []
    ensures [[x] + (a + b)[0]] + (a + b)[1..] == [[x] + a[0]] + a[1..] + b
  {
    assert (a + b)[1..] == a[1..] + b;
  }

  lemma {:induction false} SplitConcat<T>(a: seq<T>, b: seq<T>, sep: T)
    ensures Split(a + [sep] + b, sep) == Split(a, sep) + Split(b, sep)
  {
    var s := a + [sep] + b;
    if a == [] {
      assert s[1..] == b;
    } else {
      SplitConcat(a[1..], b, sep);
      assert s[1..] == a[1..] + [sep] + b && s[0] == a[0];
      var rest, last := Split(a[1..], sep), Split(b, sep);
      if a[0] == sep {
        assert [[]] + (rest + last) == [[]] + rest + last;
      } else {
        PrependFirst(a[0], rest, last);
      }
    }
  }

  /** The first part of a split ends at the first separator. */
  lemma SplitFirst<T>(a: seq<T>, b: seq<T>, sep: T)
    requires sep !in a
    ensures Split(a + [sep] + b, sep) == [a] + Split(b, sep)
  {
    SplitConcat(a, b, sep);
    SplitFree(a, sep);
  }

  /** The last part of a split starts after the last separator. */
  lemma SplitLast<T>(a: seq<T>, b: seq<T>, sep: T)
    requires sep !in b
    ensures Split(a + [sep] + b, sep) == Split(a, sep) + [b]
  {
    SplitConcat(a, b, sep);
    SplitFree(b, sep);
  }

  lemma {:induction false} JoinConcat<T>(a: seq<seq<T>>, b: seq<seq<T>>, sep: T)
    requires a != [] && b != []
    ensures Join(a + b, sep) == Join(a, sep) + [sep] + Join(b, sep)
  {
    assert (a + b)[1..] == a[1..] + b;
    if |a| > 1 {
      JoinConcat(a[1..], b, sep);
    } else {
      assert a[1..] + b == b;
    }
  }

  lemma {:induction false} JoinSplit<T>(parts: seq<seq<T>>, sep: T)
    requires |parts| >= 1
    requires forall p :: p in parts ==> sep !in p
    ensures Split(Join(parts, sep), sep) == parts
  {
    if |parts| == 1 {
      SplitFree(parts[0], sep);
    } else {
      JoinSplit(parts[1..], sep);
      SplitFirst(parts[0], Join(parts[1..], sep), sep);
      assert [parts[0]] + parts[1..] == parts;
    }
  }

  lemma {:induction false} SplitMaxFirst<T>(a: seq<T>, b: seq<T>, sep: T, max: nat)
    requires sep !in a && max >= 1
    ensures SplitMax(a + [sep] + b, sep, max) == [a] + SplitMax(b, sep, max - 1)
  {
    if a == [] {
      assert (a + [sep] + b)[1..] == b;
    } else {
      SplitMaxFirst(a[1..], b, sep, max);
      assert (a + [sep] + b)[1..] == a[1..] + [sep] + b;
      assert [a[0]] + a[1..] == a;
    }
  }

  lemma {:induction false} SplitMaxFree<T>(s: seq<T>, sep: T, max: nat)
    requires sep !in s
    ensures SplitMax(s, sep, max) == [s]
  {
    if s != [] && max > 0 {
      SplitMaxFree(s[1..], sep, max);
      assert [s[0]] + s[1..] == s;
    }
  }

  lemma {:induction false} CountConcat<T>(a: seq<T>, b: seq<T>, x: T)
    ensures Count(a + b, x) == Count(a, x) + Count(b, x)
  {
    if a == [] {
      assert a + b == b;
    } else {
      CountConcat(a[1..], b, x);
      assert (a + b)[1..] == a[1..] + b;
    }
  }

  lemma {:induction false} CountMember<T>(s: seq<T>, x: T)
    ensures Count(s, x) > 0 <==> x in s
  {
    if s != [] {
      CountMember(s[1..], x);
    }
  }

  /** Cutting at the first occurrence. */
  lemma {:induction false} FirstOccurrence<T>(s: seq<T>, x: T) returns (a: seq<T>, b: seq<T>)
    requires x in s
    ensures s == a + [x] + b && x !in a
  {
    if s[0] == x {
      a, b := [], s[1..];
    } else {
      a, b := FirstOccurrence(s[1..], x);
      a := [s[0]] + a;
    }
  }

  /** Stripping undoes padding, for a text that does not end in the padding element. */
  lemma {:induction false} StripPad<T>(s: seq<T>, x: T, n: nat)
    requires s != [] ==> s[|s| - 1] != x
    ensures StripRight(s + Repeat(x, n), x) == s
  {
    var t := s + Repeat(x, n);
    if n == 0 {
      assert t == s;
    } else {
      assert t[..|t| - 1] == s + Repeat(x, n - 1);
      StripPad(s, x, n - 1);
    }
  }
}
