/** Dropping what was met before: each item at its first occurrence, two items being the same that have one key. */
module Coalescing {
  function Keys<T(==), K(==)>(key: T -> K, es: seq<T>): set<K> {
    set e | e in es :: key(e)
  }

  /** The items whose key is new with respect to `seen`, each key at its first occurrence. */
  function FirstOnly<T(==), K(==)>(key: T -> K, seen: set<K>, es: seq<T>): seq<T> {
    if |es| == 0 then []
    else
      var last := es[|es| - 1];
      var front := es[..|es| - 1];
      FirstOnly(key, seen, front) + if key(last) in seen + Keys(key, front) then [] else [last]
  }

  lemma KeysLast<T, K>(key: T -> K, es: seq<T>, e: T)
    ensures Keys(key, es + [e]) == Keys(key, es) + {key(e)}
  {
    assert forall x :: x in es + [e] <==> x in es || x == e;
  }

  lemma FirstOnlyStep<T, K>(key: T -> K, seen: set<K>, es: seq<T>, e: T)
    ensures FirstOnly(key, seen, es + [e]) ==
            FirstOnly(key, seen, es) + if key(e) in seen + Keys(key, es) then [] else [e]
  {
    assert (es + [e])[..|es|] == es;
  }

  /** One item more, the queue so far and the keys so far being at hand. */
  lemma QueueStep<T, K>(key: T -> K, queue: seq<T>, seen: set<K>, done: seq<T>, e: T)
    ensures queue + FirstOnly(key, seen, done + [e]) ==
            if key(e) in seen + Keys(key, done) then queue + FirstOnly(key, seen, done)
            else queue + FirstOnly(key, seen, done) + [e]
    ensures seen + Keys(key, done + [e]) ==
            if key(e) in seen + Keys(key, done) then seen + Keys(key, done) else seen + Keys(key, done) + {key(e)}
  {
    FirstOnlyStep(key, seen, done, e);
    KeysLast(key, done, e);
  }

  /** No key twice. */
  ghost predicate KeysDiffer<T, K>(key: T -> K, r: seq<T>) {
    forall i, j :: 0 <= i < j < |r| ==> key(r[i]) != key(r[j])
  }

  ghost predicate LeftOf<T, K>(key: T -> K, seen: set<K>, es: seq<T>, r: seq<T>) {
    && (forall e :: e in r ==> e in es)
    && Keys(key, r) == Keys(key, es) - seen
    && KeysDiffer(key, r)
  }

  lemma DifferMore<T, K>(key: T -> K, r: seq<T>, e: T)
    requires KeysDiffer(key, r) && key(e) !in Keys(key, r)
    ensures KeysDiffer(key, r + [e])
  {
    assert forall i :: 0 <= i < |r| ==> r[i] in r;
  }

  lemma LeftMore<T, K>(key: T -> K, seen: set<K>, es: seq<T>, r: seq<T>, e: T)
    requires LeftOf(key, seen, es, r)
    ensures LeftOf(key, seen, es + [e], if key(e) in seen + Keys(key, es) then r else r + [e])
  {
    KeysLast(key, es, e);
    if key(e) !in seen + Keys(key, es) {
      KeysLast(key, r, e);
      DifferMore(key, r, e);
    }
  }

  /** What is left are items met, the keys are those not seen before, and no key is left twice. */
  lemma {:induction false} FirstOnlyMembers<T, K>(key: T -> K, seen: set<K>, es: seq<T>)
    ensures LeftOf(key, seen, es, FirstOnly(key, seen, es))
  {
    if es != [] {
      var front, last := es[..|es| - 1], es[|es| - 1];
      FirstOnlyMembers(key, seen, front);
      assert es == front + [last];
      LeftMore(key, seen, front, FirstOnly(key, seen, front), last);
    }
  }

  /** They come in the order of their first occurrences: a first occurrence follows what was left before it. */
  lemma {:induction false} FirstOnlyOrder<T, K>(key: T -> K, seen: set<K>, es: seq<T>, i: nat)
    requires i < |es| && key(es[i]) !in seen + Keys(key, es[..i])
    ensures FirstOnly(key, seen, es[..i]) + [es[i]] <= FirstOnly(key, seen, es)
  {
    var front, last := es[..|es| - 1], es[|es| - 1];
    assert es == front + [last];
    FirstOnlyStep(key, seen, front, last);
    if i < |front| {
      assert front[..i] == es[..i];
      FirstOnlyOrder(key, seen, front, i);
    } else {
      assert es[..i] == front;
    }
  }

  lemma Associate<T>(a: seq<T>, b: seq<T>, e: T)
    ensures a + b + [e] == a + (b + [e]) && a + b + [] == a + (b + [])
  {
  }

  lemma KeysConcat<T, K>(key: T -> K, a: seq<T>, b: seq<T>)
    ensures Keys(key, a + b) == Keys(key, a) + Keys(key, b)
  {
    assert forall x :: x in a + b <==> x in a || x in b;
  }

  /** Two batches one after the other are one batch. */
  lemma {:induction false} FirstOnlyConcat<T, K>(key: T -> K, seen: set<K>, a: seq<T>, b: seq<T>)
    ensures FirstOnly(key, seen, a + b) == FirstOnly(key, seen, a) + FirstOnly(key, seen + Keys(key, a), b)
  {
    if b == [] {
      assert a + b == a;
    } else {
      var front, last := b[..|b| - 1], b[|b| - 1];
      FirstOnlyConcat(key, seen, a, front);
      assert a + b == (a + front) + [last] && b == front + [last];
      ConcatLast(key, seen, a, front, last);
    }
  }

  lemma ConcatLast<T, K>(key: T -> K, seen: set<K>, a: seq<T>, front: seq<T>, last: T)
    requires FirstOnly(key, seen, a + front) == FirstOnly(key, seen, a) + FirstOnly(key, seen + Keys(key, a), front)
    ensures FirstOnly(key, seen, (a + front) + [last]) ==
            FirstOnly(key, seen, a) + FirstOnly(key, seen + Keys(key, a), front + [last])
  {
    FirstOnlyStep(key, seen, a + front, last);
    FirstOnlyStep(key, seen + Keys(key, a), front, last);
    KeysConcat(key, a, front);
    assert key(last) in seen + Keys(key, a) + Keys(key, front) <==> key(last) in seen + Keys(key, a + front);
    Associate(FirstOnly(key, seen, a), FirstOnly(key, seen + Keys(key, a), front), last);
  }

  /** Every item is left, up to equality, exactly when no two different items met have one key. */
  lemma AllLeftExactly<T, K>(key: T -> K, es: seq<T>)
    ensures (forall e :: e in es ==> e in FirstOnly(key, {}, es))
       <==> (forall d, e :: d in es && e in es && key(d) == key(e) ==> d == e)
  {
    FirstOnlyMembers(key, {}, es);
    var r := FirstOnly(key, {}, es);
    if forall e :: e in es ==> e in r {
      forall d, e | d in es && e in es && key(d) == key(e)
        ensures d == e
      {
        assert d in r && e in r;
      }
    } else {
      var e :| e in es && e !in r;
      assert key(e) in Keys(key, es);
      assert key(e) in Keys(key, r);
      var d :| d in r && key(d) == key(e);
    }
  }
}
