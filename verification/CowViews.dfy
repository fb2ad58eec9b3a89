/**
 What a layer looks like from outside, to any depth; that writing through one dictionary is seen only by
 those built on it; and that a dictionary behaves like a plain nested map of its own.
 */
module CowViews {
  import opened Sequences
  import opened CowDict

  /** A dictionary unfolded; dictionaries below the chosen depth are cut off. */
  datatype Tree = Cut | Leaf(v: int) | Data(content: seq<int>) | Dict(m: map<string, Tree>)

  /** The names getattr can find. */
  function Names(h: Heap, r: Ref): set<string>
    requires WellFormed(h) && IsLayer(h, r)
    decreases r
  {
    assert ObjectOk(h, r);
    var o := h.objs[r];
    o.plain.Keys + o.mutable.Keys + if o.base.Some? then Names(h, o.base.value) else {}
  }

  function Shown(h: Heap, f: Found, n: nat): Tree
    requires WellFormed(h) && (f.Object? ==> f.ref in h.objs)
    decreases n, 1
  {
    if f.Immutable? then Leaf(f.v) else View(h, f.ref, n)
  }

  function View(h: Heap, r: Ref, n: nat): Tree
    requires WellFormed(h) && r in h.objs
    decreases n, 0
  {
    if h.objs[r].Box? then Data(h.objs[r].content)
    else if n == 0 then Cut
    else Dict(map k | k in Names(h, r) && Lookup(h, r, k).Some? :: Shown(h, Lookup(h, r, k).value, n - 1))
  }

  lemma {:induction false} NamesCover(h: Heap, r: Ref, k: string)
    requires WellFormed(h) && IsLayer(h, r)
    ensures GetPlain(h, r, k).Some? || GetMutable(h, r, k).Some? ==> k in Names(h, r)
    decreases r
  {
    assert ObjectOk(h, r);
    if h.objs[r].base.Some? {
      NamesCover(h, h.objs[r].base.value, k);
    }
  }

  /** A view is its lookups. */
  lemma ViewAt(h: Heap, r: Ref, n: nat, k: string)
    requires WellFormed(h) && IsLayer(h, r) && n > 0
    ensures var v := View(h, r, n);
            v.Dict? && (k in v.m <==> Lookup(h, r, k).Some?)
              && (k in v.m ==> v.m[k] == Shown(h, Lookup(h, r, k).value, n - 1))
  {
    NamesCover(h, r, k);
  }

  lemma ViewsEqual(h: Heap, r: Ref, h': Heap, r': Ref, n: nat)
    requires WellFormed(h) && WellFormed(h') && IsLayer(h, r) && IsLayer(h', r')
    requires n > 0 ==> forall k :: Lookup(h', r', k).Some? == Lookup(h, r, k).Some?
    requires n > 0 ==> forall k :: Lookup(h, r, k).Some? ==>
                         Shown(h', Lookup(h', r', k).value, n - 1) == Shown(h, Lookup(h, r, k).value, n - 1)
    ensures View(h', r', n) == View(h, r, n)
  {
    if n > 0 {
      var a, b := View(h, r, n), View(h', r', n);
      forall k
        ensures (k in a.m <==> k in b.m) && (k in a.m ==> a.m[k] == b.m[k])
      {
        ViewAt(h, r, n, k);
        ViewAt(h', r', n, k);
      }
      assert a.m.Keys == b.m.Keys;
      assert a.m == b.m;
    }
  }

  // ---- where objects belong ----

  /** An object belongs to one dictionary of the caller's, at the keys that lead to it. */
  datatype Place = Place(top: Ref, path: seq<string>)

  /** `above[t]`: the dictionaries that t was copied from, directly or not. */
  datatype Labels = Labels(place: map<Ref, Place>, above: map<Ref, set<Ref>>)

  /**
   Mutable values are not shared: the value of key k in an object at p is at p + [k]. Bases of an object
   belong to dictionaries its own was copied from. The root holds nothing.
   */
  ghost predicate Labelled(h: Heap, l: Labels) {
    && WellFormed(h)
    && l.place.Keys == h.objs.Keys
    && Ancestry(l)
    && (forall t :: t in l.above ==> t < h.next)
    && (forall r :: r in h.objs ==> l.place[r].top in l.above)
    && ROOT in h.objs && h.objs[ROOT] == Layer(None, map[], map[]) && l.place[ROOT] == Place(ROOT, [])
    && (forall r {:trigger OwnPlaced(h, l, r)} :: IsLayer(h, r) ==> OwnPlaced(h, l, r))
  }

  /** The heap there is before any dictionary. */
  lemma StartLabelled(h: Heap)
    requires h == Heap(map[ROOT := Layer(None, map[], map[])], 1)
    ensures Labelled(h, Labels(map[ROOT := Place(ROOT, [])], map[ROOT := {}]))
  {
    assert ObjectOk(h, ROOT);
  }

  ghost predicate Ancestry(l: Labels) {
    && (forall t :: t in l.above ==> t !in l.above[t])
    && (forall t, s :: t in l.above && s in l.above[t] ==> s in l.above && l.above[s] <= l.above[t])
    && (forall t :: t in l.above && t != ROOT ==> ROOT in l.above[t])
  }

  ghost predicate OwnPlaced(h: Heap, l: Labels, r: Ref)
    requires WellFormed(h) && l.place.Keys == h.objs.Keys && IsLayer(h, r)
  {
    assert ObjectOk(h, r);
    var o := h.objs[r];
    && (forall k :: k in o.mutable ==> l.place[o.mutable[k]] == ChildPlace(l.place[r], k))
    && (o.base.Some? ==> l.place[r].top in l.above && l.place[o.base.value].top in l.above[l.place[r].top])
  }

  function ChildPlace(p: Place, k: string): Place {
    Place(p.top, p.path + [k])
  }

  /** What an object at p can read: its own subtree, and everything of the dictionaries above. */
  predicate Sees(l: Labels, p: Place, q: Place) {
    (p.top in l.above && q.top in l.above[p.top]) || (q.top == p.top && p.path <= q.path)
  }

  /** Nothing that r can read differs. */
  ghost predicate Untouched(h: Heap, l: Labels, h': Heap, r: Ref)
    requires Labelled(h, l) && r in h.objs
  {
    forall o :: o in h.objs && Sees(l, l.place[r], l.place[o]) ==> o in h'.objs && h'.objs[o] == h.objs[o]
  }

  lemma SeesTransitive(h: Heap, l: Labels, p: Place, q: Place, s: Place)
    requires Labelled(h, l) && Sees(l, p, q) && Sees(l, q, s)
    ensures Sees(l, p, s)
  {
  }

  lemma UntouchedSeen(h: Heap, l: Labels, h': Heap, r: Ref, q: Ref)
    requires Labelled(h, l) && r in h.objs && q in h.objs && Untouched(h, l, h', r)
    requires Sees(l, l.place[r], l.place[q])
    ensures Untouched(h, l, h', q)
  {
    forall o | o in h.objs && Sees(l, l.place[q], l.place[o])
      ensures o in h'.objs && h'.objs[o] == h.objs[o]
    {
      SeesTransitive(h, l, l.place[r], l.place[q], l.place[o]);
    }
  }

  lemma {:induction false} UntouchedLookup(h: Heap, l: Labels, h': Heap, r: Ref, k: string)
    requires Labelled(h, l) && WellFormed(h') && IsLayer(h, r) && Untouched(h, l, h', r)
    ensures r in h'.objs && h'.objs[r] == h.objs[r]
    ensures GetPlain(h', r, k) == GetPlain(h, r, k) && GetMutable(h', r, k) == GetMutable(h, r, k)
    ensures GetMutable(h, r, k).Some? ==> Untouched(h, l, h', GetMutable(h, r, k).value)
    decreases r
  {
    assert Sees(l, l.place[r], l.place[r]);
    assert ObjectOk(h, r) && ObjectOk(h', r);
    var o := h.objs[r];
    if k in o.mutable {
      assert OwnPlaced(h, l, r);
      UntouchedSeen(h, l, h', r, o.mutable[k]);
    }
    if o.base.Some? {
      assert OwnPlaced(h, l, r);
      UntouchedSeen(h, l, h', r, o.base.value);
      UntouchedLookup(h, l, h', o.base.value, k);
    }
  }

  lemma {:induction false} UntouchedView(h: Heap, l: Labels, h': Heap, r: Ref, n: nat)
    requires Labelled(h, l) && WellFormed(h') && r in h.objs && Untouched(h, l, h', r)
    ensures r in h'.objs && View(h', r, n) == View(h, r, n)
    decreases n, 1
  {
    assert Sees(l, l.place[r], l.place[r]);
    if h.objs[r].Layer? && n > 0 {
      forall k {
        UntouchedKey(h, l, h', r, k, n);
      }
      ViewsEqual(h, r, h', r, n);
    }
  }

  lemma {:induction false} UntouchedKey(h: Heap, l: Labels, h': Heap, r: Ref, k: string, n: nat)
    requires Labelled(h, l) && WellFormed(h') && IsLayer(h, r) && Untouched(h, l, h', r) && n > 0
    ensures IsLayer(h', r) && Lookup(h', r, k) == Lookup(h, r, k)
    ensures Lookup(h, r, k).Some? ==> Shown(h', Lookup(h', r, k).value, n - 1) == Shown(h, Lookup(h, r, k).value, n - 1)
    decreases n, 0
  {
    UntouchedLookup(h, l, h', r, k);
    var f := Lookup(h, r, k);
    if f.Some? && f.value.Object? {
      UntouchedView(h, l, h', f.value.ref, n - 1);
    }
  }

  /** Only objects at p or below changed; objects and labels only accumulate. */
  ghost predicate Confined(h: Heap, l: Labels, h': Heap, l': Labels, p: Place) {
    && Labelled(h, l) && Labelled(h', l')
    && l'.above == l.above
    && (forall o :: o in h.objs ==> o in h'.objs && l'.place[o] == l.place[o])
    && (forall o :: o in h.objs && h'.objs[o] != h.objs[o] ==> l.place[o].top == p.top && p.path <= l.place[o].path)
  }

  lemma ConfinedTransitive(h: Heap, l: Labels, h1: Heap, l1: Labels, h2: Heap, l2: Labels, p: Place, q: Place)
    requires Confined(h, l, h1, l1, p) && Confined(h1, l1, h2, l2, q)
    requires q.top == p.top && p.path <= q.path
    ensures Confined(h, l, h2, l2, p)
  {
    forall o | o in h.objs && h2.objs[o] != h.objs[o]
      ensures l.place[o].top == p.top && p.path <= l.place[o].path
    {
      if h1.objs[o] == h.objs[o] {
        assert h2.objs[o] != h1.objs[o];
        assert q.path <= l.place[o].path;
      }
    }
  }

  /** Neither above p nor below it. */
  predicate Apart(l: Labels, r: Place, p: Place) {
    && (r.top in l.above ==> p.top !in l.above[r.top])
    && (r.top == p.top ==> !(r.path <= p.path) && !(p.path <= r.path))
  }

  lemma PrefixesCompare(a: seq<string>, b: seq<string>, c: seq<string>)
    ensures a <= c && b <= c ==> a <= b || b <= a
  {
    if a <= c && b <= c {
      assert if |a| <= |b| then a == c[..|a|] == b[..|a|] else b == c[..|b|] == a[..|b|];
    }
  }

  lemma ApartUntouched(h: Heap, l: Labels, h': Heap, l': Labels, p: Place, r: Ref)
    requires Confined(h, l, h', l', p) && r in h.objs && Apart(l, l.place[r], p)
    ensures Untouched(h, l, h', r)
  {
    forall o | o in h.objs && Sees(l, l.place[r], l.place[o])
      ensures h'.objs[o] == h.objs[o]
    {
      PrefixesCompare(l.place[r].path, p.path, l.place[o].path);
    }
  }

  /** Changes confined to p are invisible to every object apart from p: ancestors, siblings, other keys. */
  lemma ConfinedInvisible(h: Heap, l: Labels, h': Heap, l': Labels, p: Place, r: Ref, n: nat)
    requires Confined(h, l, h', l', p) && r in h.objs && Apart(l, l.place[r], p)
    ensures r in h'.objs && View(h', r, n) == View(h, r, n)
  {
    ApartUntouched(h, l, h', l', p, r);
    UntouchedView(h, l, h', r, n);
  }

  // ---- reading ----

  function LabelNew(l: Labels, r: Ref, p: Place): Labels {
    l.(place := l.place[r := p])
  }

  /** The labels after `GetItem`: the copy, if any, belongs at the key. */
  ghost function GetLabels(h: Heap, l: Labels, r: Ref, k: string): Labels
    requires Labelled(h, l) && IsLayer(h, r)
  {
    if Copies(h, r, k) then LabelNew(l, h.next, ChildPlace(l.place[r], k)) else l
  }

  /** An object that may be put at p in r's dictionary: a box, or an empty layer over an older dictionary. */
  ghost predicate Placeable(h: Heap, l: Labels, p: Place, o: Obj)
    requires Labelled(h, l)
  {
    && p.top in l.above
    && (o.Layer? ==> o.plain == map[] && o.mutable == map[] && o.base.Some? && IsLayer(h, o.base.value)
                     && l.place[o.base.value].top in l.above[p.top])
  }

  lemma AllocOwnPlaced(h: Heap, l: Labels, p: Place, o: Obj, r: Ref)
    requires Labelled(h, l) && Placeable(h, l, p, o) && WellFormed(Alloc(h, o)) && IsLayer(Alloc(h, o), r)
    ensures OwnPlaced(Alloc(h, o), LabelNew(l, h.next, p), r)
  {
    AllocOk(h, o);
    Fresh(h);
    if r != h.next {
      assert ObjectOk(h, r) && OwnPlaced(h, l, r);
    }
  }

  lemma AllocLabelled(h: Heap, l: Labels, p: Place, o: Obj, q: Place)
    requires Labelled(h, l) && Placeable(h, l, p, o)
    ensures Labelled(Alloc(h, o), LabelNew(l, h.next, p))
    ensures Confined(h, l, Alloc(h, o), LabelNew(l, h.next, p), q)
  {
    var h', l' := Alloc(h, o), LabelNew(l, h.next, p);
    AllocOk(h, o);
    Fresh(h);
    forall r | IsLayer(h', r)
      ensures OwnPlaced(h', l', r)
    {
      AllocOwnPlaced(h, l, p, o, r);
    }
    assert Ancestry(l');
    assert Labelled(h', l');
  }

  lemma PutLabelled(h: Heap, l: Labels, r: Ref, k: string, v: Ref)
    requires Labelled(h, l) && IsLayer(h, r) && r != ROOT && v in h.objs && l.place[v] == ChildPlace(l.place[r], k)
    ensures Confined(h, l, PutMutable(h, r, k, v), l, l.place[r])
  {
    var h' := PutMutable(h, r, k, v);
    assert h'.objs.Keys == h.objs.Keys;
    PutOk(h, r, k, v);
    forall q | IsLayer(h', q)
      ensures OwnPlaced(h', l, q)
    {
      assert ObjectOk(h, q) && OwnPlaced(h, l, q);
    }
  }

  /** Allocating an object for key k of r. */
  lemma PutNewLabelled(h: Heap, l: Labels, r: Ref, k: string, o: Obj)
    requires Labelled(h, l) && IsLayer(h, r) && r != ROOT && Placeable(h, l, l.place[r], o)
    ensures var h', l' := PutNew(h, r, k, o), LabelNew(l, h.next, ChildPlace(l.place[r], k));
            && h'.objs[h.next] == o
            && Confined(h, l, h', l', l.place[r])
            && (forall q :: q in h.objs && q != r ==> h'.objs[q] == h.objs[q])
  {
    var p := ChildPlace(l.place[r], k);
    var h1, l1 := Alloc(h, o), LabelNew(l, h.next, p);
    Fresh(h);
    AllocLabelled(h, l, p, o, l.place[r]);
    PutLabelled(h1, l1, r, k, h.next);
    ConfinedTransitive(h, l, h1, l1, PutNew(h, r, k, o), l1, l.place[r], l.place[r]);
  }

  lemma {:induction false} MutableAbove(h: Heap, l: Labels, r: Ref, k: string)
    requires Labelled(h, l) && IsLayer(h, r)
    ensures GetMutable(h, r, k).Some? ==>
              var v := GetMutable(h, r, k).value;
              if k in h.objs[r].mutable then l.place[v] == ChildPlace(l.place[r], k)
              else l.place[v].top in l.above[l.place[r].top]
    decreases r
  {
    var o := h.objs[r];
    assert ObjectOk(h, r) && OwnPlaced(h, l, r);
    if k !in o.mutable && o.base.Some? {
      assert ObjectOk(h, o.base.value);
      MutableAbove(h, l, o.base.value, k);
    }
  }

  /** A value found in an ancestor may be copied to the key. */
  lemma CopyPlaceable(h: Heap, l: Labels, r: Ref, k: string)
    requires Labelled(h, l) && IsLayer(h, r) && Copies(h, r, k)
    ensures GetMutable(h, r, k).Some? && Placeable(h, l, l.place[r], CopyOf(h, GetMutable(h, r, k).value))
  {
    MutableAbove(h, l, r, k);
  }

  lemma CopyLabelled(h: Heap, l: Labels, r: Ref, k: string)
    requires Labelled(h, l) && IsLayer(h, r) && r != ROOT && Copies(h, r, k)
    ensures GetMutable(h, r, k).Some?
    ensures Confined(h, l, PutNew(h, r, k, CopyOf(h, GetMutable(h, r, k).value)),
                     LabelNew(l, h.next, ChildPlace(l.place[r], k)), l.place[r])
  {
    CopyPlaceable(h, l, r, k);
    PutNewLabelled(h, l, r, k, CopyOf(h, GetMutable(h, r, k).value));
  }

  lemma GetLabelled(h: Heap, l: Labels, r: Ref, k: string)
    requires Labelled(h, l) && IsLayer(h, r) && r != ROOT
    ensures Confined(h, l, GetItem(h, r, k).0, GetLabels(h, l, r, k), l.place[r])
  {
    GetShape(h, r, k);
    if Copies(h, r, k) {
      CopyLabelled(h, l, r, k);
    } else {
      NothingConfined(h, l, l.place[r]);
    }
  }

  lemma NothingConfined(h: Heap, l: Labels, p: Place)
    requires Labelled(h, l)
    ensures Confined(h, l, h, l, p)
  {
  }

  lemma GetShape(h: Heap, r: Ref, k: string)
    requires WellFormed(h) && IsLayer(h, r)
    ensures Copies(h, r, k) ==> GetMutable(h, r, k).Some?
    ensures GetItem(h, r, k).0 == if Copies(h, r, k) then PutNew(h, r, k, CopyOf(h, GetMutable(h, r, k).value)) else h
  {
  }

  /** The object a get returns is the layer's own, at the key. */
  lemma GetOwns(h: Heap, l: Labels, r: Ref, k: string)
    requires Labelled(h, l) && IsLayer(h, r) && r != ROOT
    ensures var (h', f), l' := GetItem(h, r, k), GetLabels(h, l, r, k);
            f.Some? && f.value.Object? ==>
              && r in h'.objs && h'.objs[r].Layer? && k in h'.objs[r].mutable && h'.objs[r].mutable[k] == f.value.ref
              && f.value.ref in l'.place && l'.place[f.value.ref] == ChildPlace(l.place[r], k)
  {
    MutableAbove(h, l, r, k);
  }

  /** h' is h with a copy of o put at key k of r. */
  ghost predicate CopiedTo(h: Heap, h': Heap, r: Ref, k: string, o: Ref) {
    && WellFormed(h) && WellFormed(h') && IsLayer(h, r) && o in h.objs && o != r
    && GetMutable(h, r, k) == Some(o) && k !in h.objs[r].mutable
    && h' == PutNew(h, r, k, CopyOf(h, o))
  }

  lemma GetCopies(h: Heap, l: Labels, r: Ref, k: string)
    requires Labelled(h, l) && IsLayer(h, r) && Copies(h, r, k)
    ensures GetMutable(h, r, k).Some? && CopiedTo(h, GetItem(h, r, k).0, r, k, GetMutable(h, r, k).value)
  {
    NotSelf(h, l, r, k);
  }

  /** In h', key lookups are as before, but for the copy in place of the original. */
  lemma {:induction false} CopiedLookups(h: Heap, h': Heap, r: Ref, k: string, o: Ref, x: Ref, j: string)
    requires CopiedTo(h, h', r, k, o) && IsLayer(h, x)
    ensures IsLayer(h', x)
    ensures GetPlain(h', x, j) == GetPlain(h, x, j)
    ensures GetMutable(h', x, j) == GetMutable(h, x, j)
         || (GetMutable(h, x, j) == Some(o) && GetMutable(h', x, j) == Some(h.next))
    decreases x
  {
    assert ObjectOk(h, x) && ObjectOk(h', x);
    if h.objs[x].base.Some? {
      CopiedLookups(h, h', r, k, o, h.objs[x].base.value, j);
    }
  }

  /** The copy looks like the original. */
  lemma CopyView(h: Heap, h': Heap, r: Ref, k: string, o: Ref, n: nat)
    requires CopiedTo(h, h', r, k, o)
    ensures o in h'.objs && h.next in h'.objs && View(h', h.next, n) == View(h', o, n)
  {
    Fresh(h);
    assert h'.objs[o] == h.objs[o] && h'.objs[h.next] == CopyOf(h, o);
    if h.objs[o].Layer? {
      assert forall j :: Lookup(h', h.next, j) == Lookup(h', o, j);
      ViewsEqual(h', o, h', h.next, n);
    }
  }

  /** h' is h with a copy c of o, which some lookups now find in place of o. */
  ghost predicate Mirrors(h: Heap, h': Heap, o: Ref, c: Ref) {
    && WellFormed(h) && WellFormed(h')
    && o in h.objs && c in h'.objs
    && (forall x :: x in h.objs ==>
          x in h'.objs && (if h.objs[x].Layer? then h'.objs[x].Layer? else h'.objs[x] == h.objs[x]))
    && (forall x, j :: IsLayer(h, x) ==> MirroredAt(h, h', o, c, x, j))
    && (forall n: nat :: o in h'.objs && View(h', c, n) == View(h', o, n))
  }

  ghost predicate MirroredAt(h: Heap, h': Heap, o: Ref, c: Ref, x: Ref, j: string)
    requires WellFormed(h) && WellFormed(h') && IsLayer(h, x)
  {
    IsLayer(h', x)
    && (Lookup(h', x, j) == Lookup(h, x, j)
        || (Lookup(h, x, j) == Some(Object(o)) && Lookup(h', x, j) == Some(Object(c))))
  }

  lemma {:induction false} MirrorView(h: Heap, h': Heap, o: Ref, c: Ref, x: Ref, n: nat)
    requires Mirrors(h, h', o, c) && x in h.objs
    ensures x in h'.objs && View(h', x, n) == View(h, x, n)
    decreases n, 1
  {
    if h.objs[x].Layer? && n > 0 {
      forall j {
        MirrorShown(h, h', o, c, x, j, n);
      }
      ViewsEqual(h, x, h', x, n);
    }
  }

  lemma {:induction false} MirrorShown(h: Heap, h': Heap, o: Ref, c: Ref, x: Ref, j: string, n: nat)
    requires Mirrors(h, h', o, c) && IsLayer(h, x) && n > 0
    ensures IsLayer(h', x) && Lookup(h', x, j).Some? == Lookup(h, x, j).Some?
    ensures Lookup(h, x, j).Some? ==> Shown(h', Lookup(h', x, j).value, n - 1) == Shown(h, Lookup(h, x, j).value, n - 1)
    decreases n, 0
  {
    assert MirroredAt(h, h', o, c, x, j);
    var f := Lookup(h, x, j);
    if f.Some? && f.value.Object? {
      MirrorView(h, h', o, c, f.value.ref, n - 1);
    }
  }

  lemma CopiedMirrors(h: Heap, h': Heap, r: Ref, k: string, o: Ref)
    requires CopiedTo(h, h', r, k, o)
    ensures Mirrors(h, h', o, h.next)
  {
    Fresh(h);
    forall x, j | IsLayer(h, x)
      ensures MirroredAt(h, h', o, h.next, x, j)
    {
      CopiedLookups(h, h', r, k, o, x, j);
    }
    forall n: nat
      ensures o in h'.objs && View(h', h.next, n) == View(h', o, n)
    {
      CopyView(h, h', r, k, o, n);
    }
  }

  lemma NotSelf(h: Heap, l: Labels, r: Ref, k: string)
    requires Labelled(h, l) && IsLayer(h, r)
    ensures GetMutable(h, r, k) != Some(r)
  {
    MutableAbove(h, l, r, k);
    assert |ChildPlace(l.place[r], k).path| > |l.place[r].path|;
  }

  /** Reading, although it copies, changes nothing anybody can see. */
  lemma GetTransparent(h: Heap, l: Labels, r: Ref, k: string, x: Ref, n: nat)
    requires Labelled(h, l) && IsLayer(h, r) && x in h.objs
    ensures var h' := GetItem(h, r, k).0;
            x in h'.objs && View(h', x, n) == View(h, x, n)
  {
    if Copies(h, r, k) {
      GetCopies(h, l, r, k);
      CopiedMirrors(h, GetItem(h, r, k).0, r, k, GetMutable(h, r, k).value);
      MirrorView(h, GetItem(h, r, k).0, GetMutable(h, r, k).value, h.next, x, n);
    }
  }

  // ---- writing ----

  /** What an edit does to a plain nested map, which knows no revert; n is the depth shown. */
  function EditTree(t: Tree, n: nat, e: Edit): Tree {
    match t
    case Dict(m) =>
      (match e
       case SetAtom(k, v) => Dict(m[k := Leaf(v)])
       case SetBox(k, content) => Dict(m[k := Data(content)])
       case SetLayer(k) => Dict(m[k := if n <= 1 then Cut else Dict(map[])])
       case Delete(k) => Dict(m - {k})
       case _ => t)
    case Data(_) => if e.Overwrite? then Data(e.content) else t
    case _ => t
  }

  function ApplyTree(t: Tree, n: nat, path: seq<string>, e: Edit): Tree
    decreases |path|
  {
    if path == [] then EditTree(t, n, e)
    else if t.Dict? && path[0] in t.m && n > 0 then
      Dict(t.m[path[0] := ApplyTree(t.m[path[0]], n - 1, path[1..], e)])
    else t
  }

  /** The plain attribute that the base has for a key. */
  function BasePlain(h: Heap, r: Ref, k: string): Option<Plain>
    requires WellFormed(h) && IsLayer(h, r) && h.objs[r].base.Some?
  {
    assert ObjectOk(h, r);
    GetPlain(h, h.objs[r].base.value, k)
  }

  /**
   A new mutable value shows only where no plain attribute hides it, here or in an ancestor; a key held in both
   forms loses only the plain one in a revert, and the other shows unless the base has a plain one too.
   */
  predicate Allowed(h: Heap, r: Ref, e: Edit)
    requires WellFormed(h) && r in h.objs
  {
    h.objs[r].Layer? ==>
      && (e.SetBox? || e.SetLayer? ==> GetPlain(h, r, e.k).None?)
      && (e.Revert? ==>
            || e.k !in h.objs[r].plain || e.k !in h.objs[r].mutable
            || (h.objs[r].base.Some? && BasePlain(h, r, e.k).Some?))
  }

  predicate ExecAllowed(h: Heap, r: Ref, path: seq<string>, e: Edit)
    requires WellFormed(h) && r in h.objs
    decreases |path|
  {
    if path == [] then Allowed(h, r, e)
    else if h.objs[r].Box? then true
    else
      var (h', f) := GetItem(h, r, path[0]);
      f.Some? && f.value.Object? ==> ExecAllowed(h', f.value.ref, path[1..], e)
  }

  ghost function ApplyLabels(h: Heap, l: Labels, r: Ref, e: Edit): Labels
    requires Labelled(h, l) && r in h.objs
  {
    if h.objs[r].Layer? && (e.SetBox? || e.SetLayer?) then LabelNew(l, h.next, ChildPlace(l.place[r], e.k)) else l
  }

  lemma ReplaceLabelled(h: Heap, l: Labels, r: Ref, o: Obj)
    requires Labelled(h, l) && r in h.objs && r != ROOT
    requires o.Layer? <==> h.objs[r].Layer?
    requires o.Layer? ==> o.base == h.objs[r].base
                          && forall k :: k in o.mutable ==>
                              k in h.objs[r].mutable && o.mutable[k] == h.objs[r].mutable[k]
    ensures Confined(h, l, h.(objs := h.objs[r := o]), l, l.place[r])
  {
    var h' := h.(objs := h.objs[r := o]);
    assert h'.objs.Keys == h.objs.Keys;
    assert ObjectOk(h, r);
    ReplaceOk(h, r, o);
    forall q | IsLayer(h', q)
      ensures OwnPlaced(h', l, q)
    {
      assert ObjectOk(h, q) && OwnPlaced(h, l, q);
    }
  }

  lemma RevertConfined(h: Heap, l: Labels, r: Ref, k: string)
    requires Labelled(h, l) && IsLayer(h, r) && r != ROOT && l.place[r].top != ROOT
    ensures Confined(h, l, Apply(h, r, Revert(k)).0, l, l.place[r])
    ensures forall q :: q in h.objs && q != r ==> Apply(h, r, Revert(k)).0.objs[q] == h.objs[q]
  {
    if RevertItem(h, r, k).Some? {
      ReplaceLabelled(h, l, r, RevertItem(h, r, k).value.objs[r]);
    } else {
      NothingConfined(h, l, l.place[r]);
    }
  }

  lemma ApplyConfined(h: Heap, l: Labels, r: Ref, e: Edit)
    requires Labelled(h, l) && r in h.objs && r != ROOT && l.place[r].top != ROOT
    ensures Confined(h, l, Apply(h, r, e).0, ApplyLabels(h, l, r, e), l.place[r])
    ensures forall q :: q in h.objs && q != r ==> Apply(h, r, e).0.objs[q] == h.objs[q]
  {
    if h.objs[r].Layer? {
      match e {
        case SetAtom(k, v) => ReplaceLabelled(h, l, r, h.objs[r].(plain := h.objs[r].plain[k := Atom(v)]));
        case SetBox(k, content) => PutNewLabelled(h, l, r, k, Box(content));
        case SetLayer(k) => PutNewLabelled(h, l, r, k, Layer(Some(ROOT), map[], map[]));
        case Delete(k) => ReplaceLabelled(h, l, r, h.objs[r].(plain := h.objs[r].plain[k := Marker]));
        case Revert(k) => RevertConfined(h, l, r, k);
        case Overwrite(_) =>
      }
    } else if e.Overwrite? {
      ReplaceLabelled(h, l, r, Box(e.content));
    }
  }

  // ---- what a write shows ----

  /** Objects below r, and objects of dictionaries above, do not see r. */
  lemma ValueBlind(h: Heap, l: Labels, h': Heap, r: Ref, j: string)
    requires Labelled(h, l) && IsLayer(h, r)
    requires forall q :: q in h.objs && q != r ==> q in h'.objs && h'.objs[q] == h.objs[q]
    ensures GetMutable(h, r, j).Some? ==> Untouched(h, l, h', GetMutable(h, r, j).value)
  {
    MutableAbove(h, l, r, j);
    assert |ChildPlace(l.place[r], j).path| > |l.place[r].path|;
  }

  lemma BaseBlind(h: Heap, l: Labels, h': Heap, r: Ref)
    requires Labelled(h, l) && IsLayer(h, r) && h.objs[r].base.Some?
    requires forall q :: q in h.objs && q != r ==> q in h'.objs && h'.objs[q] == h.objs[q]
    ensures IsLayer(h, h.objs[r].base.value) && Untouched(h, l, h', h.objs[r].base.value)
  {
    assert ObjectOk(h, r);
    assert OwnPlaced(h, l, r);
  }

  /** r, and only r, changed, and at key j it holds what it held. */
  ghost predicate SameAt(h: Heap, h': Heap, r: Ref, j: string) {
    && IsLayer(h, r) && IsLayer(h', r)
    && (forall q :: q in h.objs && q != r ==> q in h'.objs && h'.objs[q] == h.objs[q])
    && var o, o' := h.objs[r], h'.objs[r];
       && o'.base == o.base
       && (j in o.plain <==> j in o'.plain) && (j in o.plain ==> o'.plain[j] == o.plain[j])
       && (j in o.mutable <==> j in o'.mutable) && (j in o.mutable ==> o'.mutable[j] == o.mutable[j])
  }

  lemma SameAtLookup(h: Heap, l: Labels, h': Heap, r: Ref, j: string)
    requires Labelled(h, l) && WellFormed(h') && SameAt(h, h', r, j)
    ensures GetPlain(h', r, j) == GetPlain(h, r, j) && GetMutable(h', r, j) == GetMutable(h, r, j)
  {
    if h.objs[r].base.Some? {
      BaseBlind(h, l, h', r);
      UntouchedLookup(h, l, h', h.objs[r].base.value, j);
    }
  }

  lemma SameAtShown(h: Heap, l: Labels, h': Heap, r: Ref, j: string, n: nat)
    requires Labelled(h, l) && WellFormed(h') && SameAt(h, h', r, j) && n > 0
    ensures Lookup(h', r, j) == Lookup(h, r, j)
    ensures Lookup(h, r, j).Some? ==> Shown(h', Lookup(h', r, j).value, n - 1) == Shown(h, Lookup(h, r, j).value, n - 1)
  {
    SameAtLookup(h, l, h', r, j);
    ValueBlind(h, l, h', r, j);
    var f := Lookup(h, r, j);
    if f.Some? && f.value.Object? {
      UntouchedView(h, l, h', f.value.ref, n - 1);
    }
  }

  /** The view with one key changed. */
  function WithKey(t: Tree, k: string, v: Option<Tree>): Tree
    requires t.Dict?
  {
    Dict(if v.Some? then t.m[k := v.value] else t.m - {k})
  }

  function ShownAt(h: Heap, r: Ref, k: string, n: nat): Option<Tree>
    requires WellFormed(h) && IsLayer(h, r) && n > 0
  {
    var f := Lookup(h, r, k);
    if f.Some? then Some(Shown(h, f.value, n - 1)) else None
  }

  lemma ViewWithKey(h: Heap, h': Heap, r: Ref, k: string, n: nat)
    requires WellFormed(h) && WellFormed(h') && IsLayer(h, r) && IsLayer(h', r) && n > 0
    requires forall j :: j != k ==> ShownAt(h', r, j, n) == ShownAt(h, r, j, n)
    ensures View(h, r, n).Dict? && View(h', r, n) == WithKey(View(h, r, n), k, ShownAt(h', r, k, n))
  {
    var v, v' := View(h, r, n), View(h', r, n);
    var w := WithKey(v, k, ShownAt(h', r, k, n));
    forall j
      ensures (j in v'.m <==> j in w.m) && (j in w.m ==> v'.m[j] == w.m[j])
    {
      ViewAt(h, r, n, j);
      ViewAt(h', r, n, j);
      assert j != k ==> ShownAt(h', r, j, n) == ShownAt(h, r, j, n);
    }
    assert v'.m.Keys == w.m.Keys;
    assert v'.m == w.m;
  }

  lemma WithKeyInjective(t: Tree, k: string, a: Option<Tree>, b: Option<Tree>)
    requires t.Dict?
    ensures WithKey(t, k, a) == WithKey(t, k, b) <==> a == b
  {
    var m, m' := WithKey(t, k, a).m, WithKey(t, k, b).m;
    assert k in m <==> a.Some?;
    assert k in m' <==> b.Some?;
    assert a.Some? ==> m[k] == a.value;
    assert b.Some? ==> m'[k] == b.value;
  }

  /** What an edit asks to see at its key. */
  function Wanted(e: Edit, n: nat): Option<Tree> {
    match e
    case SetAtom(_, v) => Some(Leaf(v))
    case SetBox(_, content) => Some(Data(content))
    case SetLayer(_) => Some(if n <= 1 then Cut else Dict(map[]))
    case _ => None
  }

  lemma ApplySame(h: Heap, l: Labels, r: Ref, e: Edit, j: string)
    requires Labelled(h, l) && IsLayer(h, r) && r != ROOT && l.place[r].top != ROOT && !e.Overwrite? && j != e.k
    ensures WellFormed(Apply(h, r, e).0) && SameAt(h, Apply(h, r, e).0, r, j)
  {
    ApplyConfined(h, l, r, e);
  }

  /** A new mutable value sits in the own attributes; the plain attributes are as before. */
  lemma NewFound(h: Heap, l: Labels, r: Ref, k: string, o: Obj)
    requires Labelled(h, l) && IsLayer(h, r) && r != ROOT && Placeable(h, l, l.place[r], o)
    ensures var h' := PutNew(h, r, k, o);
            && WellFormed(h') && IsLayer(h', r) && h.next in h'.objs && h'.objs[h.next] == o
            && GetPlain(h', r, k) == GetPlain(h, r, k)
            && GetMutable(h', r, k) == Some(h.next)
  {
    PutNewLabelled(h, l, r, k, o);
    var h' := PutNew(h, r, k, o);
    if h.objs[r].base.Some? {
      BaseBlind(h, l, h', r);
      UntouchedLookup(h, l, h', h.objs[r].base.value, k);
    }
  }

  /** It is seen exactly when no plain attribute hides it. */
  lemma NewShown(h: Heap, l: Labels, r: Ref, k: string, o: Obj, n: nat)
    requires Labelled(h, l) && IsLayer(h, r) && r != ROOT && l.place[r].top != ROOT && n > 0
    requires o.Box? || o == Layer(Some(ROOT), map[], map[])
    ensures var h', want := PutNew(h, r, k, o),
                            if o.Box? then Data(o.content) else if n <= 1 then Cut else Dict(map[]);
            && WellFormed(h') && IsLayer(h', r)
            && (ShownAt(h', r, k, n) == Some(want) <==> GetPlain(h, r, k).None?)
  {
    NewFound(h, l, r, k, o);
    var h' := PutNew(h, r, k, o);
    if o.Layer? {
      assert h'.objs[ROOT] == h.objs[ROOT];
      RootEmpty(h', n - 1);
    }
    var f := Lookup(h', r, k);
    if GetPlain(h, r, k).None? {
      assert f == Some(Object(h.next));
      assert Shown(h', f.value, n - 1) == View(h', h.next, n - 1);
    } else {
      assert f.Some? ==> f.value.Immutable?;
    }
  }

  lemma EditShown(h: Heap, l: Labels, r: Ref, e: Edit, n: nat)
    requires Labelled(h, l) && IsLayer(h, r) && r != ROOT && l.place[r].top != ROOT && n > 0 && !e.Overwrite?
    requires !e.Revert?
    ensures var h' := Apply(h, r, e).0;
            && WellFormed(h') && IsLayer(h', r)
            && (ShownAt(h', r, e.k, n) == Wanted(e, n) <==> Allowed(h, r, e))
  {
    match e {
      case SetBox(k, content) => NewShown(h, l, r, k, Box(content), n);
      case SetLayer(k) => NewShown(h, l, r, k, Layer(Some(ROOT), map[], map[]), n);
      case _ => ApplyConfined(h, l, r, e);
    }
  }

  /** An edit shows as the same edit of a plain map, exactly when it was allowed. */
  lemma ApplyShows(h: Heap, l: Labels, r: Ref, e: Edit, n: nat)
    requires Labelled(h, l) && r in h.objs && r != ROOT && l.place[r].top != ROOT && n > 0
    requires !e.Revert?
    ensures var h' := Apply(h, r, e).0;
            && WellFormed(h') && r in h'.objs
            && (View(h', r, n) == EditTree(View(h, r, n), n, e) <==> Allowed(h, r, e))
  {
    var h' := Apply(h, r, e).0;
    if h.objs[r].Box? {
      ApplyConfined(h, l, r, e);
    } else if !e.Overwrite? {
      EditShown(h, l, r, e, n);
      forall j | j != e.k
        ensures ShownAt(h', r, j, n) == ShownAt(h, r, j, n)
      {
        ApplySame(h, l, r, e, j);
        SameAtShown(h, l, h', r, j, n);
      }
      ViewWithKey(h, h', r, e.k, n);
      EditWanted(View(h, r, n), e, n);
      WithKeyInjective(View(h, r, n), e.k, ShownAt(h', r, e.k, n), Wanted(e, n));
    }
  }

  lemma EditWanted(t: Tree, e: Edit, n: nat)
    requires t.Dict? && !e.Overwrite? && !e.Revert?
    ensures EditTree(t, n, e) == WithKey(t, e.k, Wanted(e, n))
  {
  }

  lemma RootEmpty(h: Heap, n: nat)
    requires WellFormed(h) && ROOT in h.objs && h.objs[ROOT] == Layer(None, map[], map[])
    ensures forall r :: r in h.objs && h.objs[r] == Layer(Some(ROOT), map[], map[]) ==>
              View(h, r, n) == if n == 0 then Cut else Dict(map[])
  {
    forall r | r in h.objs && h.objs[r] == Layer(Some(ROOT), map[], map[])
      ensures Names(h, r) == {}
    {
      assert Names(h, ROOT) == {};
    }
  }

  // ---- a write through a path of keys ----

  /** r may be written to: it belongs to a dictionary other than the root. */
  ghost predicate Writable(h: Heap, l: Labels, r: Ref) {
    Labelled(h, l) && r in h.objs && r != ROOT && l.place[r].top != ROOT
  }

  ghost function ExecLabels(h: Heap, l: Labels, r: Ref, path: seq<string>, e: Edit): Labels
    requires Writable(h, l, r)
    decreases |path|
  {
    if path == [] then ApplyLabels(h, l, r, e)
    else if h.objs[r].Box? then l
    else
      var (h1, f) := GetItem(h, r, path[0]);
      var l1 := GetLabels(h, l, r, path[0]);
      GetLabelled(h, l, r, path[0]);
      GetOwns(h, l, r, path[0]);
      if f.Some? && f.value.Object? then
        NotRoot(h1, l1, f.value.ref, l.place[r], path[0]);
        ExecLabels(h1, l1, f.value.ref, path[1..], e)
      else l1
  }

  lemma NotRoot(h: Heap, l: Labels, o: Ref, p: Place, k: string)
    requires Labelled(h, l) && o in h.objs && l.place[o] == ChildPlace(p, k)
    ensures o != ROOT
  {
    assert ChildPlace(p, k).path != [];
  }

  lemma {:induction false} ExecConfined(h: Heap, l: Labels, r: Ref, path: seq<string>, e: Edit)
    requires Writable(h, l, r)
    ensures Confined(h, l, Exec(h, r, path, e).0, ExecLabels(h, l, r, path, e), l.place[r])
    decreases |path|
  {
    if path == [] {
      ApplyConfined(h, l, r, e);
    } else if h.objs[r].Layer? {
      var (h1, f) := GetItem(h, r, path[0]);
      var l1 := GetLabels(h, l, r, path[0]);
      GetLabelled(h, l, r, path[0]);
      GetOwns(h, l, r, path[0]);
      if f.Some? && f.value.Object? {
        NotRoot(h1, l1, f.value.ref, l.place[r], path[0]);
        ExecConfined(h1, l1, f.value.ref, path[1..], e);
        ConfinedTransitive(h, l, h1, l1, Exec(h1, f.value.ref, path[1..], e).0,
                           ExecLabels(h1, l1, f.value.ref, path[1..], e),
                           l.place[r], ChildPlace(l.place[r], path[0]));
      }
    }
  }

  /** Changes below one key leave the layer itself, and its lookups, alone. */
  lemma OtherLookups(h: Heap, l: Labels, h': Heap, l': Labels, r: Ref, k: string, j: string)
    requires Labelled(h, l) && IsLayer(h, r) && Confined(h, l, h', l', ChildPlace(l.place[r], k))
    ensures IsLayer(h', r) && Lookup(h', r, j) == Lookup(h, r, j)
  {
    var p := ChildPlace(l.place[r], k);
    assert |p.path| > |l.place[r].path|;
    assert h'.objs[r] == h.objs[r];
    if h.objs[r].base.Some? {
      assert ObjectOk(h, r) && OwnPlaced(h, l, r);
      ApartUntouched(h, l, h', l', p, h.objs[r].base.value);
      UntouchedLookup(h, l, h', h.objs[r].base.value, j);
    }
  }

  /** And so is what it shows at the other keys. */
  lemma OtherKeys(h: Heap, l: Labels, h': Heap, l': Labels, r: Ref, k: string, j: string, n: nat)
    requires Labelled(h, l) && IsLayer(h, r) && Confined(h, l, h', l', ChildPlace(l.place[r], k)) && j != k && n > 0
    ensures IsLayer(h', r) && ShownAt(h', r, j, n) == ShownAt(h, r, j, n)
  {
    OtherLookups(h, l, h', l', r, k, j);
    var f := Lookup(h, r, j);
    if f.Some? && f.value.Object? {
      MutableAbove(h, l, r, j);
      SiblingApart(l, l.place[r], j, k);
      ConfinedInvisible(h, l, h', l', ChildPlace(l.place[r], k), f.value.ref, n - 1);
    }
  }

  lemma SiblingApart(l: Labels, p: Place, j: string, k: string)
    requires j != k && Ancestry(l)
    ensures Apart(l, ChildPlace(p, j), ChildPlace(p, k))
  {
    var a, b := p.path + [j], p.path + [k];
    assert a[|p.path|] != b[|p.path|];
  }

  lemma GetFinds(h: Heap, l: Labels, r: Ref, k: string)
    requires Labelled(h, l) && IsLayer(h, r)
    ensures var (h', f) := GetItem(h, r, k); Lookup(h', r, k) == f
  {
    if Copies(h, r, k) {
      GetCopies(h, l, r, k);
      CopiedLookups(h, GetItem(h, r, k).0, r, k, GetMutable(h, r, k).value, r, k);
    }
  }

  lemma GetWritable(h: Heap, l: Labels, r: Ref, k: string)
    requires Writable(h, l, r) && IsLayer(h, r)
    ensures var (h1, f), l1 := GetItem(h, r, k), GetLabels(h, l, r, k);
            f.Some? && f.value.Object? ==> Writable(h1, l1, f.value.ref)
  {
    GetStep(h, l, r, k, 1);
  }

  /** All that matters about the get on the way down. */
  lemma GetStep(h: Heap, l: Labels, r: Ref, k: string, n: nat)
    requires Writable(h, l, r) && IsLayer(h, r) && n > 0
    ensures var (h1, f), l1 := GetItem(h, r, k), GetLabels(h, l, r, k);
            && Labelled(h1, l1) && View(h1, r, n) == View(h, r, n) && Lookup(h1, r, k) == f
            && l1.place[r] == l.place[r]
            && (f.Some? && f.value.Object? ==>
                Writable(h1, l1, f.value.ref) && l1.place[f.value.ref] == ChildPlace(l1.place[r], k))
  {
    var (h1, f) := GetItem(h, r, k);
    GetTransparent(h, l, r, k, r, n);
    GetLabelled(h, l, r, k);
    GetFinds(h, l, r, k);
    GetOwns(h, l, r, k);
    if f.Some? && f.value.Object? {
      NotRoot(h1, GetLabels(h, l, r, k), f.value.ref, l.place[r], k);
    }
  }

  /** A path that stops at a missing key or at an immutable value writes nothing. */
  lemma StuckTree(t: Tree, n: nat, path: seq<string>, e: Edit)
    requires path != [] && t.Dict? && (path[0] in t.m ==> t.m[path[0]].Leaf?)
    ensures ApplyTree(t, n, path, e) == t
  {
    if path[0] in t.m && n > 0 {
      assert ApplyTree(t.m[path[0]], n - 1, path[1..], e) == t.m[path[0]];
    }
  }

  /** After the write, r shows what the same write makes of a plain map, exactly if it was allowed. */
  ghost predicate Faithful(h: Heap, r: Ref, path: seq<string>, e: Edit, n: nat) {
    && WellFormed(h) && r in h.objs
    && var h' := Exec(h, r, path, e).0;
       && WellFormed(h') && r in h'.objs
       && (View(h', r, n) == ApplyTree(View(h, r, n), n, path, e) <==> ExecAllowed(h, r, path, e))
  }

  /**
   Reading down some keys and then writing shows as the same write to a plain nested map of one's own, exactly
   when a mutable value is not put where a plain attribute hides it.
   */
  lemma {:induction false} ExecShowsExactly(h: Heap, l: Labels, r: Ref, path: seq<string>, e: Edit, n: nat)
    requires Writable(h, l, r) && n > |path|
    requires !e.Revert?
    ensures Faithful(h, r, path, e, n)
    decreases |path|, 1
  {
    if path == [] {
      ApplyShows(h, l, r, e, n);
    } else if h.objs[r].Layer? {
      var f := GetItem(h, r, path[0]).1;
      if f.Some? && f.value.Object? {
        ExecShowsBelow(h, l, r, path, e, n);
      } else {
        StuckShows(h, l, r, path, e, n);
      }
    }
  }

  lemma {:induction false} ExecShowsBelow(h: Heap, l: Labels, r: Ref, path: seq<string>, e: Edit, n: nat)
    requires Writable(h, l, r) && n > |path| && path != [] && IsLayer(h, r)
    requires var f := GetItem(h, r, path[0]).1; f.Some? && f.value.Object?
    requires !e.Revert?
    ensures Faithful(h, r, path, e, n)
    decreases |path|, 0
  {
    var (h1, f) := GetItem(h, r, path[0]);
    var rest, m := path[1..], n - 1;
    GetWritable(h, l, r, path[0]);
    ExecShowsExactly(h1, GetLabels(h, l, r, path[0]), f.value.ref, rest, e, m);
    ObjectExec(h, l, r, path, e, n, h1, f.value.ref, rest, m);
  }

  lemma ObjectExec(h: Heap, l: Labels, r: Ref, path: seq<string>, e: Edit, n: nat, h1: Heap, o: Ref,
                   rest: seq<string>, m: nat)
    requires Writable(h, l, r) && n > |path| && path != [] && IsLayer(h, r)
    requires GetItem(h, r, path[0]) == (h1, Some(Object(o)))
    requires rest == path[1..] && n == m + 1 && Faithful(h1, o, rest, e, m)
    ensures Faithful(h, r, path, e, n)
  {
    var k := path[0];
    GetStep(h, l, r, k, n);
    InnerShows(h1, GetLabels(h, l, r, k), r, k, o, rest, e, n, m);
    DownTree(View(h, r, n), n, path, e, rest, m);
    DownExec(h, r, path, e, h1, o, rest);
  }

  lemma DownExec(h: Heap, r: Ref, path: seq<string>, e: Edit, h1: Heap, o: Ref, rest: seq<string>)
    requires WellFormed(h) && IsLayer(h, r) && path != [] && rest == path[1..]
    requires GetItem(h, r, path[0]) == (h1, Some(Object(o)))
    ensures Exec(h, r, path, e) == Exec(h1, o, rest, e)
    ensures ExecAllowed(h, r, path, e) == ExecAllowed(h1, o, rest, e)
  {
  }

  lemma StuckShows(h: Heap, l: Labels, r: Ref, path: seq<string>, e: Edit, n: nat)
    requires Writable(h, l, r) && n > |path| && path != [] && IsLayer(h, r)
    requires var (_, f) := GetItem(h, r, path[0]); f.None? || f.value.Immutable?
    ensures var h' := Exec(h, r, path, e).0;
            && WellFormed(h') && r in h'.objs
            && View(h', r, n) == ApplyTree(View(h, r, n), n, path, e) && ExecAllowed(h, r, path, e)
  {
    GetStep(h, l, r, path[0], n);
    ViewAt(GetItem(h, r, path[0]).0, r, n, path[0]);
    StuckTree(View(h, r, n), n, path, e);
    StuckExec(h, r, path, e);
  }

  lemma DownTree(t: Tree, n: nat, path: seq<string>, e: Edit, rest: seq<string>, m: nat)
    requires path != [] && n == m + 1 && rest == path[1..] && t.Dict? && path[0] in t.m
    ensures ApplyTree(t, n, path, e) == Dict(t.m[path[0] := ApplyTree(t.m[path[0]], m, rest, e)])
  {
  }

  lemma StuckExec(h: Heap, r: Ref, path: seq<string>, e: Edit)
    requires WellFormed(h) && IsLayer(h, r) && path != []
    requires var (_, f) := GetItem(h, r, path[0]); f.None? || f.value.Immutable?
    ensures Exec(h, r, path, e).0 == GetItem(h, r, path[0]).0 && ExecAllowed(h, r, path, e)
  {
  }

  /** The step from the object at key k to the layer that holds it. */
  lemma InnerShows(h: Heap, l: Labels, r: Ref, k: string, o: Ref, rest: seq<string>, e: Edit, n: nat, m: nat)
    requires Writable(h, l, o) && IsLayer(h, r) && l.place[o] == ChildPlace(l.place[r], k)
    requires Lookup(h, r, k) == Some(Object(o)) && n == m + 1
    ensures var h', t := Exec(h, o, rest, e).0, View(h, r, n);
            && WellFormed(h') && r in h'.objs && o in h'.objs
            && t.Dict? && k in t.m && t.m[k] == View(h, o, m)
            && (View(h', r, n) == Dict(t.m[k := ApplyTree(t.m[k], m, rest, e)])
                <==> View(h', o, m) == ApplyTree(View(h, o, m), m, rest, e))
  {
    ExecConfined(h, l, o, rest, e);
    var h', l' := Exec(h, o, rest, e).0, ExecLabels(h, l, o, rest, e);
    OtherLookups(h, l, h', l', r, k, k);
    forall j | j != k
      ensures ShownAt(h', r, j, n) == ShownAt(h, r, j, n)
    {
      OtherKeys(h, l, h', l', r, k, j, n);
    }
    ViewWithKey(h, h', r, k, n);
    ViewAt(h, r, n, k);
    WithKeyInjective(View(h, r, n), k, Some(View(h', o, m)), Some(ApplyTree(View(h, o, m), m, rest, e)));
  }

  // ---- copies ----

  function CowHeap(h: Heap, r: Ref): Heap {
    Alloc(h, Layer(Some(r), map[], map[]))
  }

  ghost function CowLabels(h: Heap, l: Labels, r: Ref): Labels
    requires Labelled(h, l) && IsLayer(h, r)
  {
    var t := l.place[r].top;
    Labels(l.place[h.next := Place(h.next, [])], l.above[h.next := l.above[t] + {t}])
  }

  lemma CowLabelled(h: Heap, l: Labels, r: Ref)
    requires Labelled(h, l) && IsLayer(h, r)
    ensures Writable(CowHeap(h, r), CowLabels(h, l, r), h.next)
    ensures forall x :: x in h.objs ==> Apart(CowLabels(h, l, r), l.place[x], Place(h.next, []))
  {
    var h', l' := CowHeap(h, r), CowLabels(h, l, r);
    AllocOk(h, Layer(Some(r), map[], map[]));
    Fresh(h);
    forall x | IsLayer(h', x)
      ensures OwnPlaced(h', l', x)
    {
      if x != h.next {
        assert ObjectOk(h, x) && OwnPlaced(h, l, x);
      }
    }
    forall t | t in l.above
      ensures h.next !in l.above[t]
    {
      assert h.next !in l.above;
    }
    assert Ancestry(l');
    assert Labelled(h', l');
  }

  /** A fresh copy looks like its base, and making it changes no view. */
  lemma CowView(h: Heap, l: Labels, r: Ref, x: Ref, n: nat)
    requires Labelled(h, l) && IsLayer(h, r) && x in h.objs
    ensures var h' := CowHeap(h, r);
            && WellFormed(h') && x in h'.objs && h.next in h'.objs
            && View(h', x, n) == View(h, x, n)
            && View(h', h.next, n) == View(h, r, n)
  {
    var h' := CowHeap(h, r);
    CowLabelled(h, l, r);
    Fresh(h);
    UntouchedView(h, l, h', x, n);
    UntouchedView(h, l, h', r, n);
    forall j
      ensures Lookup(h', h.next, j) == Lookup(h', r, j)
    {
    }
    ViewsEqual(h', r, h', h.next, n);
  }

  // ---- the hidden mutable value ----

  /** A dictionary set over a string is lost: the key goes on showing the string. */
  lemma HiddenMutable()
    ensures var h := Heap(map[0 := Layer(None, map[], map[]), 1 := Layer(Some(0), map["a" := Atom(7)], map[])], 2);
            && WellFormed(h)
            && var (h', ok) := Apply(h, 1, SetBox("a", [1]));
               ok && WellFormed(h') && Lookup(h', 1, "a") == Some(Immutable(7)) && !Allowed(h, 1, SetBox("a", [1]))
  {
    var h := Heap(map[0 := Layer(None, map[], map[]), 1 := Layer(Some(0), map["a" := Atom(7)], map[])], 2);
    var h' := Apply(h, 1, SetBox("a", [1])).0;
    assert h'.objs[1] == Layer(Some(0), map["a" := Atom(7)], map["a" := 2]);
    assert GetPlain(h', 1, "a") == Some(Atom(7));
  }
}
