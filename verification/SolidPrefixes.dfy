/** For which prefixes a second substitution never changes anything, whatever the text. */
module SolidPrefixes {
  import opened Sequences
  import opened Patching

  /** Scanning u + y from the left finds nothing that starts in u. */
  ghost predicate Unmatched(w: Swap, u: Bytes, y: Bytes) {
    forall a: nat :: a < |u| ==> !OccursAt(w, u + y, a)
  }

  /**
   The prefix never completes a placeholder with a beginning of it on the left, or an end of it on the right, but
   where the scan would have found a placeholder earlier.
   */
  ghost predicate Solid(w: Swap) {
    var p := w.placeholder;
    forall i: nat, j: nat :: i < |p| && 0 < j <= |p| && Unmatched(w, p[..i], p) ==>
        !Occurs(w, p[..i] + w.prefix + p[j..])
  }

  lemma {:induction false} SubUnmatched(w: Swap, u: Bytes, y: Bytes)
    requires Unmatched(w, u, y)
    ensures Sub(w, u + y) == u + Sub(w, y)
    decreases |u|
  {
    if u == [] {
      assert u + y == y;
    } else {
      assert (u + y)[1..] == u[1..] + y;
      assert !OccursAt(w, u + y, 0);
      forall a: nat | a < |u[1..]|
        ensures !OccursAt(w, u[1..] + y, a)
      {
        assert !OccursAt(w, u + y, a + 1);
        assert (u + y)[a + 1..] == (u[1..] + y)[a..];
      }
      SubUnmatched(w, u[1..], y);
    }
  }

  /** Whether something starting in u matches is decided by the placeholder that comes next. */
  lemma UnmatchedBefore(w: Swap, u: Bytes, y: Bytes)
    ensures Unmatched(w, u, w.placeholder) <==> Unmatched(w, u, w.placeholder + y)
  {
    var p := w.placeholder;
    forall a: nat | a < |u|
      ensures OccursAt(w, u + p, a) <==> OccursAt(w, u + (p + y), a)
    {
      assert (u + (p + y))[a..] == (u + p)[a..] + y;
    }
    forall a: nat | a < |u| && Unmatched(w, u, p)
      ensures !OccursAt(w, u + (p + y), a)
    {
      assert !OccursAt(w, u + p, a);
    }
    forall a: nat | a < |u| && Unmatched(w, u, p + y)
      ensures !OccursAt(w, u + p, a)
    {
      assert !OccursAt(w, u + (p + y), a);
    }
  }

  lemma UnmatchedMore(w: Swap, u: Bytes, x: Bytes)
    requires Unmatched(w, u, x) && x != [] && !(w.placeholder <= x)
    ensures Unmatched(w, u + [x[0]], x[1..])
  {
    assert u + x == u + [x[0]] + x[1..] && (u + x)[|u|..] == x;
  }

  lemma {:induction false} SubShort(w: Swap, v: Bytes)
    requires |v| < |w.placeholder|
    ensures Sub(w, v) == v
    decreases |v|
  {
    if v != [] {
      SubShort(w, v[1..]);
    }
  }

  /** The text whose substitution has the prefix between a beginning and an end of the placeholder. */
  lemma Between(w: Swap, i: nat, j: nat)
    requires i < |w.placeholder| && 0 < j <= |w.placeholder| && Unmatched(w, w.placeholder[..i], w.placeholder)
    ensures var p := w.placeholder; Sub(w, p[..i] + (p + p[j..])) == p[..i] + w.prefix + p[j..]
  {
    var p := w.placeholder;
    UnmatchedBefore(w, p[..i], p[j..]);
    SubUnmatched(w, p[..i], p + p[j..]);
    assert (p + p[j..])[|p|..] == p[j..];
    SubShort(w, p[j..]);
  }

  /** The prefix completes no placeholder that began with its first i bytes. */
  lemma NotCompleted(w: Swap, i: nat, tail: Bytes)
    requires Solid(w) && i < |w.placeholder| && Unmatched(w, w.placeholder[..i], w.placeholder)
    requires i > 0 || w.prefix != []
    ensures !(w.placeholder[i..] <= w.prefix + tail)
  {
    var p := w.placeholder;
    if p[i..] <= w.prefix + tail {
      var j := if i + |w.prefix| < |p| then i + |w.prefix| else |p|;
      assert p[i..j] <= w.prefix by {
        assert p[i..j] == p[i..][..j - i];
      }
      Completes(w, i, j);
    }
  }

  lemma Completes(w: Swap, i: nat, j: nat)
    requires i <= j <= |w.placeholder| && w.placeholder[i..j] <= w.prefix
    requires j < |w.placeholder| ==> j - i == |w.prefix|
    ensures Occurs(w, w.placeholder[..i] + w.prefix + w.placeholder[j..])
  {
    var p, whole := w.placeholder, w.placeholder[..i] + w.prefix + w.placeholder[j..];
    assert p == p[..i] + p[i..j] + p[j..];
    assert w.prefix == p[i..j] + w.prefix[j - i..];
    assert whole[0..] == whole;
    assert OccursAt(w, whole, 0);
  }

  lemma FirstOfPrefix(q: Bytes, c: Byte, s: Bytes)
    requires q != []
    ensures q <= [c] + s <==> q[0] == c && q[1..] <= s
  {
    assert q == [q[0]] + q[1..];
    if q <= [c] + s {
      assert ([c] + s)[1..][..|q| - 1] == q[1..];
    }
  }

  /** The rest of a placeholder that stands after a substitution stood there before. */
  lemma {:induction false} RestStood(w: Swap, u: Bytes, q: Bytes, x: Bytes)
    requires Solid(w) && u != [] && q != [] && w.placeholder == u + q && q <= Sub(w, x)
    requires Unmatched(w, u, x)
    ensures q <= x
    decreases |x|
  {
    var p := w.placeholder;
    if p <= x {
      var rest := x[|p|..];
      assert x == p + rest && p[..|u|] == u && p[|u|..] == q;
      UnmatchedBefore(w, u, rest);
      NotCompleted(w, |u|, Sub(w, rest));
      assert false;
    } else {
      assert Sub(w, x) == [x[0]] + Sub(w, x[1..]) && x == [x[0]] + x[1..];
      FirstOfPrefix(q, x[0], Sub(w, x[1..]));
      FirstOfPrefix(q, x[0], x[1..]);
      if |q| > 1 {
        UnmatchedMore(w, u, x);
        assert p == u + [x[0]] + q[1..];
        RestStood(w, u + [x[0]], q[1..], x[1..]);
      }
    }
  }

  /** No placeholder starts inside the prefix either. */
  lemma NotInPrefix(w: Swap, tail: Bytes, k: nat)
    requires Solid(w) && w.placeholder != [] && k < |w.prefix|
    ensures !OccursAt(w, w.prefix + tail, k)
  {
    var p := w.placeholder;
    if OccursAt(w, w.prefix + tail, k) {
      var j := if |w.prefix| - k < |p| then |w.prefix| - k else |p|;
      var whole := p[..0] + w.prefix + p[j..];
      assert Unmatched(w, p[..0], p);
      assert p <= whole[k..] by {
        assert forall n :: 0 <= n < j ==> p[n] == (w.prefix + tail)[k..][n] && whole[k..][n] == w.prefix[k + n];
      }
      assert OccursAt(w, whole, k);
    }
  }

  lemma {:induction false} SolidNoneLeft(w: Swap, x: Bytes)
    requires Solid(w) && w.placeholder != []
    ensures !Occurs(w, Sub(w, x))
    decreases |x|
  {
    var p, y := w.placeholder, Sub(w, x);
    forall k: nat
      ensures !OccursAt(w, y, k)
    {
      if OccursAt(w, y, k) {
        if p <= x {
          var rest := x[|p|..];
          SolidNoneLeft(w, rest);
          if k < |w.prefix| {
            NotInPrefix(w, Sub(w, rest), k);
          } else {
            OccursLater(w, w.prefix, Sub(w, rest), k);
          }
        } else if x != [] {
          SolidNoneLeft(w, x[1..]);
          if k > 0 {
            OccursLater(w, [x[0]], Sub(w, x[1..]), k);
          } else {
            StoodBefore(w, x);
          }
        }
      }
    }
  }

  lemma StoodBefore(w: Swap, x: Bytes)
    requires Solid(w) && w.placeholder != [] && x != [] && w.placeholder <= [x[0]] + Sub(w, x[1..])
    ensures w.placeholder <= x
  {
    var p := w.placeholder;
    if !(p <= x) && |p| > 1 {
      assert p[..1] + x[1..] == x && x[0..] == x;
      assert p[1..] <= Sub(w, x[1..]);
      assert !OccursAt(w, x, 0);
      RestStood(w, p[..1], p[1..], x[1..]);
    }
  }

  /** A prefix that is not solid completes a placeholder in some text. */
  lemma LooseText(w: Swap) returns (x: Bytes)
    requires !Solid(w)
    ensures Occurs(w, Sub(w, x))
  {
    var p := w.placeholder;
    var i: nat, j: nat :| i < |p| && 0 < j <= |p| && Unmatched(w, p[..i], p) && Occurs(w, p[..i] + w.prefix + p[j..]);
    x := p[..i] + (p + p[j..]);
    Between(w, i, j);
  }

  ghost predicate TwiceIsOnce(w: Swap, x: Bytes) {
    Sub(w, Sub(w, x)) == Sub(w, x)
  }

  /** Substituting twice is substituting once on every text exactly for a solid prefix, or the placeholder itself. */
  lemma AlwaysTwiceExactly(w: Swap)
    requires w.placeholder != []
    ensures (forall x: Bytes :: TwiceIsOnce(w, x)) <==> Solid(w) || w.prefix == w.placeholder
  {
    if Solid(w) || w.prefix == w.placeholder {
      forall x: Bytes
        ensures TwiceIsOnce(w, x)
      {
        if Solid(w) {
          SolidNoneLeft(w, x);
        }
        TwiceExactly(w, x);
      }
    } else {
      var x := LooseText(w);
      TwiceExactly(w, x);
      assert !TwiceIsOnce(w, x);
    }
  }

  /** An absolute prefix without '#' is solid. */
  lemma GoodIsSolid(w: Swap)
    requires Good(w)
    ensures Solid(w)
  {
    if !Solid(w) {
      var x := LooseText(w);
      NoneLeft(w, x);
    }
  }
}
