/** What is written is what is read back: in a layer, and at any depth of the nested map that a layer shows. */
module CowWrites {
  import opened Sequences
  import opened CowDict
  import opened CowViews

  /** Every edit of a layer, and what its key stands for afterwards; a failed revert changes nothing. */
  lemma WriteReads(h: Heap, r: Ref, k: string, v: int, content: seq<int>)
    requires WellFormed(h) && IsLayer(h, r)
    ensures var (a, ok) := Apply(h, r, SetAtom(k, v)); ok && WellFormed(a) && Lookup(a, r, k) == Some(Immutable(v))
    ensures var (d, ok) := Apply(h, r, Delete(k)); ok && WellFormed(d) && Lookup(d, r, k) == None
    ensures var (x, ok) := Apply(h, r, Revert(k));
            ok == (k in h.objs[r].plain || k in h.objs[r].mutable) && (!ok ==> x == h)
  {
    var a, d := Apply(h, r, SetAtom(k, v)).0, Apply(h, r, Delete(k)).0;
    PlainOk(h, r, k, Atom(v));
    PlainOk(h, r, k, Marker);
    assert ObjectOk(a, r) && ObjectOk(d, r);
  }

  lemma PlainOk(h: Heap, r: Ref, k: string, p: Plain)
    requires WellFormed(h) && IsLayer(h, r)
    ensures WellFormed(PutPlain(h, r, k, p))
  {
    var h' := PutPlain(h, r, k, p);
    assert ObjectOk(h, r);
    forall q | q in h'.objs
      ensures ObjectOk(h', q)
    {
      assert ObjectOk(h, q);
    }
  }

  /** A new mutable value that no plain attribute hides. */
  lemma MutableReads(h: Heap, l: Labels, r: Ref, k: string, o: Obj)
    requires Labelled(h, l) && IsLayer(h, r) && r != ROOT && Placeable(h, l, l.place[r], o) && GetPlain(h, r, k).None?
    ensures var h' := PutNew(h, r, k, o);
            && WellFormed(h') && Lookup(h', r, k) == Some(Object(h.next)) && h'.objs[h.next] == o
  {
    var h' := PutNew(h, r, k, o);
    Fresh(h);
    PutNewLabelled(h, l, r, k, o);
    assert ObjectOk(h', r) && ObjectOk(h, r);
    if h.objs[r].base.Some? {
      BaseBlind(h, l, h', r);
      UntouchedLookup(h, l, h', h.objs[r].base.value, k);
      assert GetPlain(h', h.objs[r].base.value, k) == GetPlain(h, h.objs[r].base.value, k);
    }
  }

  /** So a box set at a key is read there with its content, and a dictionary set at a key is read there, empty. */
  lemma BoxAndLayerRead(h: Heap, l: Labels, r: Ref, k: string, content: seq<int>)
    requires Labelled(h, l) && IsLayer(h, r) && r != ROOT && l.place[r].top != ROOT
    requires GetPlain(h, r, k).None?
    ensures var (b, ok) := Apply(h, r, SetBox(k, content));
            ok && WellFormed(b) && Lookup(b, r, k) == Some(Object(h.next)) && b.objs[h.next] == Box(content)
    ensures var (d, ok) := Apply(h, r, SetLayer(k));
            ok && WellFormed(d) && Lookup(d, r, k) == Some(Object(h.next))
              && d.objs[h.next] == Layer(Some(ROOT), map[], map[])
  {
    MutableReads(h, l, r, k, Box(content));
    MutableReads(h, l, r, k, Layer(Some(ROOT), map[], map[]));
  }

  /** The content of a box is replaced. */
  lemma BoxOverwritten(h: Heap, r: Ref, content: seq<int>)
    requires WellFormed(h) && r in h.objs && h.objs[r].Box?
    ensures var (b, ok) := Apply(h, r, Overwrite(content)); ok && b.objs == h.objs[r := Box(content)]
  {
  }

  /** What does not fit the kind of object changes nothing, and says so. */
  lemma WrongKind(h: Heap, r: Ref, e: Edit)
    requires WellFormed(h) && r in h.objs && (h.objs[r].Box? <==> !e.Overwrite?)
    ensures Apply(h, r, e) == (h, false)
  {
  }

  /** A way that leads to no object ends there: what was read on it stays read, and nothing is written. */
  lemma WayEnds(h: Heap, r: Ref, path: seq<string>, e: Edit)
    requires WellFormed(h) && IsLayer(h, r) && path != []
    requires Lookup(h, r, path[0]).None? || Lookup(h, r, path[0]).value.Immutable?
    ensures Exec(h, r, path, e) == (h, false)
  {
  }

  /** Nothing lies below a value that is no dictionary. */
  lemma BoxEndsWay(h: Heap, r: Ref, path: seq<string>, e: Edit)
    requires WellFormed(h) && r in h.objs && h.objs[r].Box? && path != []
    ensures Exec(h, r, path, e) == (h, false)
  {
  }

  // ---- nested maps ----

  function TreeAt(t: Tree, path: seq<string>): Option<Tree>
    decreases |path|
  {
    if |path| == 0 then Some(t)
    else if t.Dict? && path[0] in t.m then TreeAt(t.m[path[0]], path[1..])
    else None
  }

  /** Setting a key of the dictionary at a path: read back there, and nowhere else does anything change. */
  lemma {:induction false} TreeWrites(t: Tree, n: nat, path: seq<string>, k: string, v: int, other: seq<string>)
    requires TreeAt(t, path).Some? && TreeAt(t, path).value.Dict? && n > |path|
    ensures TreeAt(ApplyTree(t, n, path, SetAtom(k, v)), path + [k]) == Some(Leaf(v))
    ensures !(path + [k] <= other) && !(other <= path) ==>
              TreeAt(ApplyTree(t, n, path, SetAtom(k, v)), other) == TreeAt(t, other)
    decreases |path|
  {
    if |path| == 0 {
      assert path + [k] == [k] && [k][1..] == [];
      assert other != [] && other[0] == k ==> [k] <= other;
    } else {
      var j, rest := path[0], path[1..];
      assert path + [k] == [j] + (rest + [k]) && (path + [k])[1..] == rest + [k];
      if other != [] && other[0] == j {
        assert other == [j] + other[1..] && path == [j] + rest;
        assert rest + [k] <= other[1..] ==> path + [k] <= other;
        assert other[1..] <= rest ==> other <= path;
        TreeWrites(t.m[j], n - 1, rest, k, v, other[1..]);
      } else {
        TreeWrites(t.m[j], n - 1, rest, k, v, []);
      }
    }
  }

  /** Deleting a key of the dictionary at a path: gone from there, and nowhere else does anything change. */
  lemma {:induction false} TreeDeletes(t: Tree, n: nat, path: seq<string>, k: string, other: seq<string>)
    requires TreeAt(t, path).Some? && TreeAt(t, path).value.Dict? && n > |path|
    ensures TreeAt(ApplyTree(t, n, path, Delete(k)), path + [k]) == None
    ensures !(path + [k] <= other) && !(other <= path) ==>
              TreeAt(ApplyTree(t, n, path, Delete(k)), other) == TreeAt(t, other)
    decreases |path|
  {
    if |path| == 0 {
      assert path + [k] == [k];
      assert other != [] && other[0] == k ==> [k] <= other;
    } else {
      var j, rest := path[0], path[1..];
      assert path + [k] == [j] + (rest + [k]) && (path + [k])[1..] == rest + [k];
      if other != [] && other[0] == j {
        assert other == [j] + other[1..] && path == [j] + rest;
        assert rest + [k] <= other[1..] ==> path + [k] <= other;
        assert other[1..] <= rest ==> other <= path;
        TreeDeletes(t.m[j], n - 1, rest, k, other[1..]);
      } else {
        TreeDeletes(t.m[j], n - 1, rest, k, []);
      }
    }
  }
}
