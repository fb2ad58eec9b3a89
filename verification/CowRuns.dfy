/**
 Whole runs on a copy-on-write dictionary, reverts included: that others do not notice, and that the dictionary
 is a plain overlay over what its base shows.
 */
module CowRuns {
  import opened Sequences
  import opened CowDict
  import opened CowViews

  // ---- the overlay ----

  /** What an overlay holds of its own for a key: a nested dictionary is an overlay again. */
  datatype Own = OwnAtom(v: int) | OwnGone | OwnData(content: seq<int>) | OwnDict(below: Overlay)

  /** A dictionary: what the base shows, which never changes, and what was written over it. */
  datatype Overlay = Overlay(base: map<string, Tree>, own: map<string, Own>)

  function ShowOwn(o: Own, n: nat): Option<Tree>
    decreases o, 1
  {
    match o
    case OwnAtom(v) => Some(Leaf(v))
    case OwnGone => None
    case OwnData(content) => Some(Data(content))
    case OwnDict(below) => Some(if n == 0 then Cut else Show(below, n))
  }

  /** What a key shows: the own value if there is one, else that of the base. */
  function ShowKey(v: Overlay, k: string, n: nat): Option<Tree>
    requires n > 0
    decreases v, 0
  {
    if k in v.own then ShowOwn(v.own[k], n - 1) else if k in v.base then Some(v.base[k]) else None
  }

  function Show(v: Overlay, n: nat): Tree
    requires n > 0
    decreases v, 1
  {
    Dict(map k | k in v.base.Keys + v.own.Keys && ShowKey(v, k, n).Some? :: ShowKey(v, k, n).value)
  }

  /** The value that reading a key makes the dictionary's own. */
  function Down(v: Overlay, k: string): Option<Own> {
    if k in v.own then Some(v.own[k])
    else if k in v.base then
      match v.base[k]
      case Leaf(a) => Some(OwnAtom(a))
      case Data(content) => Some(OwnData(content))
      case Dict(m) => Some(OwnDict(Overlay(m, map[])))
      case Cut => None
    else None
  }

  function EditOver(v: Overlay, e: Edit): Overlay {
    match e
    case SetAtom(k, a) => v.(own := v.own[k := OwnAtom(a)])
    case SetBox(k, content) => v.(own := v.own[k := OwnData(content)])
    case SetLayer(k) => v.(own := v.own[k := OwnDict(Overlay(map[], map[]))])
    case Delete(k) => v.(own := v.own[k := OwnGone])
    case Revert(k) => v.(own := v.own - {k})
    case Overwrite(_) => v
  }

  function ApplyOver(v: Overlay, path: seq<string>, e: Edit): Overlay
    decreases |path|
  {
    if |path| == 0 then EditOver(v, e)
    else
      match Down(v, path[0])
      case Some(OwnData(content)) => v.(own := v.own[path[0] := EditData(content, path[1..], e)])
      case Some(OwnDict(below)) => v.(own := v.own[path[0] := OwnDict(ApplyOver(below, path[1..], e))])
      case _ => v
  }

  function EditData(content: seq<int>, rest: seq<string>, e: Edit): Own {
    OwnData(if |rest| == 0 && e.Overwrite? then e.content else content)
  }

  /** A revert gives back what the base shows. */
  lemma RevertedKey(v: Overlay, k: string, n: nat)
    requires n > 0
    ensures ShowKey(EditOver(v, Revert(k)), k, n) == if k in v.base then Some(v.base[k]) else None
    ensures forall j :: j != k ==> ShowKey(EditOver(v, Revert(k)), j, n) == ShowKey(v, j, n)
  {
  }

  // ---- a layer is an overlay ----

  /** A layer is this overlay, as far as depth n shows. */
  ghost predicate Sim(h: Heap, r: Ref, v: Overlay, n: nat)
    decreases n, 2
  {
    && WellFormed(h) && IsLayer(h, r) && h.objs[r].base.Some?
    && BaseIs(h, r, v.base, n)
    && (n > 0 ==> forall k :: SimAt(h, r, v, k, n))
  }

  ghost predicate BaseIs(h: Heap, r: Ref, base: map<string, Tree>, n: nat)
    requires WellFormed(h) && IsLayer(h, r) && h.objs[r].base.Some?
  {
    assert ObjectOk(h, r);
    n > 0 ==> View(h, h.objs[r].base.value, n) == Dict(base)
  }

  /** The own mutable value of a key is seen unless a plain attribute of an ancestor hides it. */
  predicate Bare(h: Heap, r: Ref, k: string)
    requires WellFormed(h) && IsLayer(h, r) && h.objs[r].base.Some?
  {
    k in h.objs[r].mutable && BasePlain(h, r, k).None?
  }

  ghost predicate SimAt(h: Heap, r: Ref, v: Overlay, k: string, n: nat)
    requires WellFormed(h) && IsLayer(h, r) && h.objs[r].base.Some? && n > 0
    decreases n, 1
  {
    assert ObjectOk(h, r);
    var o := h.objs[r];
    if k in o.plain then k in v.own && v.own[k] == PlainOwn(o.plain[k])
    else if Bare(h, r, k) then k in v.own && SimValue(h, o.mutable[k], v.own[k], n - 1)
    else k !in v.own
  }

  function PlainOwn(p: Plain): Own {
    match p
    case Atom(v) => OwnAtom(v)
    case Marker => OwnGone
  }

  ghost predicate SimValue(h: Heap, x: Ref, o: Own, n: nat)
    requires WellFormed(h)
    decreases n, 3
  {
    x in h.objs &&
    match o
    case OwnData(content) => h.objs[x] == Box(content)
    case OwnDict(below) => Sim(h, x, below, n)
    case _ => false
  }

  lemma {:induction false} SimShows(h: Heap, r: Ref, v: Overlay, n: nat)
    requires Sim(h, r, v, n) && n > 0
    ensures View(h, r, n) == Show(v, n)
    decreases n, 1
  {
    var a, b := View(h, r, n), Show(v, n);
    forall k
      ensures (k in a.m <==> k in b.m) && (k in a.m ==> a.m[k] == b.m[k])
    {
      ViewAt(h, r, n, k);
      KeyShows(h, r, v, k, n);
    }
    assert a.m.Keys == b.m.Keys;
    assert a.m == b.m;
  }

  lemma {:induction false} KeyShows(h: Heap, r: Ref, v: Overlay, k: string, n: nat)
    requires Sim(h, r, v, n) && n > 0
    ensures ShownAt(h, r, k, n) == ShowKey(v, k, n)
    decreases n, 0
  {
    assert ObjectOk(h, r) && SimAt(h, r, v, k, n);
    var o := h.objs[r];
    if k !in o.plain {
      if Bare(h, r, k) {
        ValueShows(h, o.mutable[k], v.own[k], n - 1);
      } else {
        ViewAt(h, o.base.value, n, k);
      }
    }
  }

  lemma {:induction false} ValueShows(h: Heap, x: Ref, o: Own, n: nat)
    requires WellFormed(h) && SimValue(h, x, o, n)
    ensures ShowOwn(o, n) == Some(View(h, x, n))
    decreases n, 2
  {
    if o.OwnDict? && n > 0 {
      SimShows(h, x, o.below, n);
    }
  }

  // ---- what changes elsewhere does not matter ----

  lemma {:induction false} UntouchedSim(h: Heap, l: Labels, h': Heap, r: Ref, v: Overlay, n: nat)
    requires Labelled(h, l) && WellFormed(h') && r in h.objs && Untouched(h, l, h', r) && Sim(h, r, v, n)
    ensures Sim(h', r, v, n)
    decreases n, 1
  {
    assert Sees(l, l.place[r], l.place[r]);
    assert ObjectOk(h, r) && OwnPlaced(h, l, r);
    UntouchedSeen(h, l, h', r, h.objs[r].base.value);
    UntouchedView(h, l, h', h.objs[r].base.value, n);
    if n > 0 {
      forall k
        ensures SimAt(h', r, v, k, n)
      {
        UntouchedSimAt(h, l, h', r, v, k, n);
      }
    }
  }

  lemma {:induction false} UntouchedSimAt(h: Heap, l: Labels, h': Heap, r: Ref, v: Overlay, k: string, n: nat)
    requires Labelled(h, l) && WellFormed(h') && IsLayer(h, r) && Untouched(h, l, h', r)
    requires h.objs[r].base.Some? && n > 0 && SimAt(h, r, v, k, n)
    ensures IsLayer(h', r) && h'.objs[r].base.Some? && SimAt(h', r, v, k, n)
    decreases n, 0
  {
    assert Sees(l, l.place[r], l.place[r]);
    assert ObjectOk(h, r) && ObjectOk(h', r) && OwnPlaced(h, l, r);
    var o := h.objs[r];
    UntouchedSeen(h, l, h', r, o.base.value);
    UntouchedLookup(h, l, h', o.base.value, k);
    if Bare(h, r, k) {
      UntouchedSeen(h, l, h', r, o.mutable[k]);
      if v.own[k].OwnDict? && k !in o.plain {
        UntouchedSim(h, l, h', o.mutable[k], v.own[k].below, n - 1);
      } else {
        assert Sees(l, l.place[o.mutable[k]], l.place[o.mutable[k]]);
      }
    }
  }

  /** The base, and the own values of r, are the same when only r changed. */
  lemma BaseStays(h: Heap, l: Labels, h': Heap, r: Ref, base: map<string, Tree>, n: nat)
    requires Labelled(h, l) && WellFormed(h') && IsLayer(h, r) && IsLayer(h', r)
    requires h.objs[r].base.Some? && h'.objs[r].base == h.objs[r].base
    requires forall q :: q in h.objs && q != r ==> q in h'.objs && h'.objs[q] == h.objs[q]
    ensures BaseIs(h, r, base, n) ==> BaseIs(h', r, base, n)
    ensures forall k :: BasePlain(h', r, k) == BasePlain(h, r, k)
  {
    var b := h.objs[r].base.value;
    BaseBlind(h, l, h', r);
    UntouchedView(h, l, h', b, n);
    forall k {
      UntouchedLookup(h, l, h', b, k);
    }
  }

  /** Only r changed, and at key j it holds what it held. */
  lemma SameSim(h: Heap, l: Labels, h': Heap, r: Ref, v: Overlay, v': Overlay, j: string, n: nat)
    requires Labelled(h, l) && WellFormed(h') && SameAt(h, h', r, j) && h.objs[r].base.Some? && n > 0
    requires SimAt(h, r, v, j, n) && (j in v.own <==> j in v'.own) && (j in v.own ==> v'.own[j] == v.own[j])
    ensures SimAt(h', r, v', j, n)
  {
    assert ObjectOk(h, r) && ObjectOk(h', r);
    BaseStays(h, l, h', r, map[], 0);
    if j !in h.objs[r].plain && Bare(h, r, j) {
      ValueBlind(h, l, h', r, j);
      var x := h.objs[r].mutable[j];
      assert Sees(l, l.place[x], l.place[x]);
      if v.own[j].OwnDict? {
        UntouchedSim(h, l, h', x, v.own[j].below, n - 1);
      }
    }
  }

  // ---- one edit ----

  /** A new mutable value that is seen. */
  lemma PutNewSim(h: Heap, l: Labels, r: Ref, v: Overlay, k: string, o: Obj, own: Own, n: nat)
    requires Writable(h, l, r) && Sim(h, r, v, n) && n > 0 && GetPlain(h, r, k).None?
    requires Placeable(h, l, l.place[r], o)
    requires WellFormed(PutNew(h, r, k, o)) && SimValue(PutNew(h, r, k, o), h.next, own, n - 1)
    ensures Sim(PutNew(h, r, k, o), r, v.(own := v.own[k := own]), n)
  {
    var h', v' := PutNew(h, r, k, o), v.(own := v.own[k := own]);
    Fresh(h);
    PutNewLabelled(h, l, r, k, o);
    assert ObjectOk(h, r) && ObjectOk(h', r);
    BaseStays(h, l, h', r, v.base, n);
    forall j
      ensures SimAt(h', r, v', j, n)
    {
      assert SimAt(h, r, v, j, n);
      if j != k {
        assert SameAt(h, h', r, j);
        SameSim(h, l, h', r, v, v', j, n);
      } else {
        assert BasePlain(h, r, k).None? && BasePlain(h', r, k) == BasePlain(h, r, k);
        assert h'.objs[r].mutable[k] == h.next && k !in h'.objs[r].plain;
        assert Bare(h', r, k);
      }
    }
    assert BaseIs(h', r, v'.base, n);
    assert forall j :: SimAt(h', r, v', j, n);
    assert Sim(h', r, v', n);
  }

  /** An edit that leaves the own mutable values alone, but for one that it drops. */
  lemma PlainSim(h: Heap, l: Labels, r: Ref, v: Overlay, e: Edit, n: nat)
    requires Writable(h, l, r) && Sim(h, r, v, n) && n > 0 && Allowed(h, r, e)
    requires e.SetAtom? || e.Delete? || e.Revert?
    ensures WellFormed(Apply(h, r, e).0) && Sim(Apply(h, r, e).0, r, EditOver(v, e), n)
  {
    var h', v' := Apply(h, r, e).0, EditOver(v, e);
    ApplyConfined(h, l, r, e);
    assert ObjectOk(h, r) && ObjectOk(h', r);
    BaseStays(h, l, h', r, v.base, n);
    forall j
      ensures SimAt(h', r, v', j, n)
    {
      assert SimAt(h, r, v, j, n);
      if j != e.k {
        ApplySame(h, l, r, e, j);
        SameSim(h, l, h', r, v, v', j, n);
      }
    }
  }

  lemma NewLayerSim(h: Heap, r: Ref, n: nat)
    requires WellFormed(h) && ROOT in h.objs && h.objs[ROOT] == Layer(None, map[], map[])
    requires r in h.objs && h.objs[r] == Layer(Some(ROOT), map[], map[])
    ensures Sim(h, r, Overlay(map[], map[]), n)
  {
    if n > 0 {
      assert Names(h, ROOT) == {};
      assert View(h, ROOT, n) == Dict(map[]);
      forall k
        ensures SimAt(h, r, Overlay(map[], map[]), k, n)
      {
      }
    }
  }

  lemma EditSim(h: Heap, l: Labels, r: Ref, v: Overlay, e: Edit, n: nat)
    requires Writable(h, l, r) && Sim(h, r, v, n) && n > 0 && Allowed(h, r, e)
    ensures WellFormed(Apply(h, r, e).0) && Sim(Apply(h, r, e).0, r, EditOver(v, e), n)
  {
    match e {
      case SetBox(k, content) =>
        PutNewLabelled(h, l, r, k, Box(content));
        PutNewSim(h, l, r, v, k, Box(content), OwnData(content), n);
      case SetLayer(k) =>
        var o := Layer(Some(ROOT), map[], map[]);
        PutNewLabelled(h, l, r, k, o);
        NewLayerSim(PutNew(h, r, k, o), h.next, n - 1);
        PutNewSim(h, l, r, v, k, o, OwnDict(Overlay(map[], map[])), n);
      case Overwrite(_) =>
      case _ => PlainSim(h, l, r, v, e, n);
    }
  }

  // ---- reading ----

  /** Reading a key makes a mutable value of the base the layer's own. */
  function Opened(v: Overlay, k: string): Overlay {
    var o := Down(v, k);
    if o.Some? && (o.value.OwnData? || o.value.OwnDict?) then v.(own := v.own[k := o.value]) else v
  }

  lemma EmptyLayerSim(h: Heap, x: Ref, c: Ref, m: map<string, Tree>, n: nat)
    requires WellFormed(h) && IsLayer(h, x) && c in h.objs && h.objs[c] == Layer(Some(x), map[], map[])
    requires n > 0 ==> View(h, x, n) == Dict(m)
    ensures Sim(h, c, Overlay(m, map[]), n)
  {
    assert ObjectOk(h, c);
    if n > 0 {
      forall k
        ensures SimAt(h, c, Overlay(m, map[]), k, n)
      {
      }
    }
  }

  /** What an inherited mutable value looks like is in the base of the overlay. */
  lemma InheritedShown(h: Heap, l: Labels, r: Ref, v: Overlay, k: string, n: nat)
    requires Writable(h, l, r) && IsLayer(h, r) && Sim(h, r, v, n) && n > 0 && Copies(h, r, k)
    ensures GetMutable(h, r, k).Some? && GetPlain(h, r, k).None?
    ensures k !in v.own && k in v.base && v.base[k] == View(h, GetMutable(h, r, k).value, n - 1)
  {
    assert ObjectOk(h, r) && SimAt(h, r, v, k, n);
    var b := h.objs[r].base.value;
    assert Lookup(h, b, k) == Lookup(h, r, k);
    ViewAt(h, b, n, k);
  }

  /** The heap after a read that copies x. */
  lemma CopyLands(h: Heap, l: Labels, r: Ref, k: string, h': Heap, x: Ref, n: nat)
    requires Writable(h, l, r) && IsLayer(h, r) && Copies(h, r, k)
    requires GetMutable(h, r, k) == Some(x) && h' == GetItem(h, r, k).0
    ensures WellFormed(h') && h.next in h'.objs && h'.objs[h.next] == CopyOf(h, x)
    ensures x in h.objs && x in h'.objs && h'.objs[x] == h.objs[x] && View(h', x, n) == View(h, x, n)
  {
    GetShape(h, r, k);
    CopyPlaceable(h, l, r, k);
    PutNewLabelled(h, l, r, k, CopyOf(h, x));
    GetTransparent(h, l, r, k, x, n);
    NotSelf(h, l, r, k);
  }

  /** The copy that a read makes is the own value that the overlay gets. */
  lemma CopiedValue(h: Heap, l: Labels, r: Ref, v: Overlay, k: string, n: nat, h': Heap, x: Ref)
    requires Writable(h, l, r) && IsLayer(h, r) && Sim(h, r, v, n) && n > 1 && Copies(h, r, k)
    requires GetMutable(h, r, k) == Some(x) && h' == GetItem(h, r, k).0
    ensures Down(v, k).Some? && WellFormed(h') && SimValue(h', h.next, Down(v, k).value, n - 1)
  {
    InheritedShown(h, l, r, v, k, n);
    CopyLands(h, l, r, k, h', x, n - 1);
    if h.objs[x].Layer? {
      ViewAt(h, x, n - 1, k);
      EmptyLayerSim(h', x, h.next, v.base[k].m, n - 1);
    }
  }

  lemma CopySim(h: Heap, l: Labels, r: Ref, v: Overlay, k: string, n: nat)
    requires Writable(h, l, r) && IsLayer(h, r) && Sim(h, r, v, n) && n > 1 && Copies(h, r, k)
    ensures Sim(GetItem(h, r, k).0, r, Opened(v, k), n)
  {
    var x := GetMutable(h, r, k).value;
    GetShape(h, r, k);
    InheritedShown(h, l, r, v, k, n);
    CopyPlaceable(h, l, r, k);
    CopiedValue(h, l, r, v, k, n, GetItem(h, r, k).0, x);
    PutNewSim(h, l, r, v, k, CopyOf(h, x), Down(v, k).value, n);
  }

  lemma GetSim(h: Heap, l: Labels, r: Ref, v: Overlay, k: string, n: nat)
    requires Writable(h, l, r) && IsLayer(h, r) && Sim(h, r, v, n) && n > 1
    ensures Sim(GetItem(h, r, k).0, r, Opened(v, k), n)
    ensures var f := GetItem(h, r, k).1;
            f.Some? && f.value.Object? <==> Down(v, k).Some? && (Down(v, k).value.OwnData? || Down(v, k).value.OwnDict?)
  {
    GetShape(h, r, k);
    KeyShows(h, r, v, k, n);
    assert ObjectOk(h, r) && SimAt(h, r, v, k, n);
    if Copies(h, r, k) {
      InheritedShown(h, l, r, v, k, n);
      CopySim(h, l, r, v, k, n);
    } else if k in h.objs[r].plain {
      assert GetPlain(h, r, k) == Some(h.objs[r].plain[k]);
      assert Opened(v, k) == v;
    } else if Bare(h, r, k) {
      assert GetPlain(h, r, k).None? && GetMutable(h, r, k) == Some(h.objs[r].mutable[k]);
      assert SimValue(h, h.objs[r].mutable[k], v.own[k], n - 1);
      assert Opened(v, k) == v;
    } else {
      var b := h.objs[r].base.value;
      assert Lookup(h, r, k) == Lookup(h, b, k);
      ViewAt(h, b, n, k);
    }
  }

  // ---- one operation ----

  /** The own value that key k leads to changed, and nothing outside it. */
  lemma InnerSim(h: Heap, l: Labels, h': Heap, l': Labels, r: Ref, v: Overlay, k: string, x: Ref, own: Own, n: nat)
    requires Writable(h, l, r) && Sim(h, r, v, n) && n > 0 && Lookup(h, r, k) == Some(Object(x))
    requires l.place[x] == ChildPlace(l.place[r], k) && Confined(h, l, h', l', ChildPlace(l.place[r], k))
    requires SimValue(h', x, own, n - 1)
    ensures Sim(h', r, v.(own := v.own[k := own]), n)
  {
    var p, v' := ChildPlace(l.place[r], k), v.(own := v.own[k := own]);
    assert |p.path| > |l.place[r].path|;
    assert h'.objs[r] == h.objs[r];
    assert ObjectOk(h, r) && ObjectOk(h', r) && OwnPlaced(h, l, r);
    var b := h.objs[r].base.value;
    ApartUntouched(h, l, h', l', p, b);
    UntouchedView(h, l, h', b, n);
    OwnAt(h, l, r, k, x);
    forall j
      ensures SimAt(h', r, v', j, n)
    {
      assert SimAt(h, r, v, j, n);
      UntouchedLookup(h, l, h', b, j);
      if j != k {
        OtherSim(h, l, h', l', r, v, v', k, j, n);
      }
    }
    assert Sim(h', r, v', n);
  }

  /** The object at key k, being placed there, is the own mutable value, and it shows. */
  lemma OwnAt(h: Heap, l: Labels, r: Ref, k: string, x: Ref)
    requires Writable(h, l, r) && IsLayer(h, r) && h.objs[r].base.Some? && Lookup(h, r, k) == Some(Object(x))
    requires l.place[x] == ChildPlace(l.place[r], k)
    ensures k !in h.objs[r].plain && Bare(h, r, k) && h.objs[r].mutable[k] == x
  {
    assert ObjectOk(h, r);
    MutableAbove(h, l, r, k);
  }

  lemma OtherSim(h: Heap, l: Labels, h': Heap, l': Labels, r: Ref, v: Overlay, v': Overlay, k: string, j: string,
                 n: nat)
    requires Labelled(h, l) && IsLayer(h, r) && IsLayer(h', r) && h'.objs[r] == h.objs[r] && h.objs[r].base.Some?
             && n > 0
    requires Confined(h, l, h', l', ChildPlace(l.place[r], k)) && j != k && BasePlain(h', r, j) == BasePlain(h, r, j)
    requires SimAt(h, r, v, j, n) && (j in v.own <==> j in v'.own) && (j in v.own ==> v'.own[j] == v.own[j])
    ensures SimAt(h', r, v', j, n)
  {
    assert ObjectOk(h, r) && OwnPlaced(h, l, r);
    if j !in h.objs[r].plain && Bare(h, r, j) {
      var x := h.objs[r].mutable[j];
      SiblingApart(l, l.place[r], j, k);
      ApartUntouched(h, l, h', l', ChildPlace(l.place[r], k), x);
      assert Sees(l, l.place[x], l.place[x]);
      if v.own[j].OwnDict? {
        UntouchedSim(h, l, h', x, v.own[j].below, n - 1);
      }
    }
  }

  /** On a box a path ends; without one, only its content can be overwritten. */
  lemma BoxExec(h: Heap, l: Labels, x: Ref, rest: seq<string>, e: Edit)
    requires Writable(h, l, x) && h.objs[x].Box?
    ensures var h' := Exec(h, x, rest, e).0;
            WellFormed(h') && SimValue(h', x, EditData(h.objs[x].content, rest, e), 0)
  {
    ExecConfined(h, l, x, rest, e);
  }

  /** An operation on a layer is the same operation on its overlay. */
  lemma {:induction false} ExecSim(h: Heap, l: Labels, r: Ref, v: Overlay, path: seq<string>, e: Edit, n: nat)
    requires Writable(h, l, r) && Sim(h, r, v, n) && n > |path| && ExecAllowed(h, r, path, e)
    ensures WellFormed(Exec(h, r, path, e).0) && Sim(Exec(h, r, path, e).0, r, ApplyOver(v, path, e), n)
    decreases |path|, 1
  {
    if path == [] {
      EditSim(h, l, r, v, e, n);
    } else {
      GetSim(h, l, r, v, path[0], n);
      var f := GetItem(h, r, path[0]).1;
      if f.Some? && f.value.Object? {
        BelowSim(h, l, r, v, path, e, n);
      } else {
        StuckExec(h, r, path, e);
      }
    }
  }

  /** From the layer after the read, through the object at the key. */
  lemma {:induction false} DownSim(h: Heap, l: Labels, r: Ref, v: Overlay, k: string, x: Ref, o: Own,
                                   rest: seq<string>, e: Edit, n: nat, m: nat)
    requires Writable(h, l, r) && Writable(h, l, x) && Sim(h, r, v, n) && n == m + 1 && m > |rest|
    requires Lookup(h, r, k) == Some(Object(x)) && l.place[x] == ChildPlace(l.place[r], k)
    requires SimValue(h, x, o, m) && ExecAllowed(h, x, rest, e)
    ensures WellFormed(Exec(h, x, rest, e).0)
    ensures Sim(Exec(h, x, rest, e).0, r, v.(own := v.own[k := ExecOwn(o, rest, e)]), n)
    decreases |rest|, 2
  {
    ExecConfined(h, l, x, rest, e);
    if o.OwnDict? {
      ExecSim(h, l, x, o.below, rest, e, m);
    } else {
      BoxExec(h, l, x, rest, e);
    }
    InnerSim(h, l, Exec(h, x, rest, e).0, ExecLabels(h, l, x, rest, e), r, v, k, x, ExecOwn(o, rest, e), n);
  }

  /** What an operation makes of an own value. */
  function ExecOwn(o: Own, rest: seq<string>, e: Edit): Own {
    match o
    case OwnData(content) => EditData(content, rest, e)
    case OwnDict(below) => OwnDict(ApplyOver(below, rest, e))
    case _ => o
  }

  /** After the read, the object at the key is the own value, and it is what the overlay has there. */
  lemma OpenedAt(h: Heap, l: Labels, r: Ref, v: Overlay, k: string, n: nat, h1: Heap, x: Ref)
    requires Writable(h, l, r) && IsLayer(h, r) && Sim(h, r, v, n) && n > 1 && GetItem(h, r, k) == (h1, Some(Object(x)))
    ensures Sim(h1, r, Opened(v, k), n) && Down(v, k).Some? && SimValue(h1, x, Down(v, k).value, n - 1)
    ensures Opened(v, k).own == v.own[k := Down(v, k).value]
  {
    GetSim(h, l, r, v, k, n);
    GetStep(h, l, r, k, n);
    OwnAt(h1, GetLabels(h, l, r, k), r, k, x);
    assert SimAt(h1, r, Opened(v, k), k, n);
  }

  /** What the read leaves for the rest of the way down. */
  lemma DownReady(h: Heap, l: Labels, r: Ref, path: seq<string>, e: Edit, n: nat, h1: Heap, l1: Labels, x: Ref,
                  rest: seq<string>)
    requires Writable(h, l, r) && IsLayer(h, r) && path != [] && rest == path[1..] && n > 0
    requires GetItem(h, r, path[0]) == (h1, Some(Object(x))) && l1 == GetLabels(h, l, r, path[0])
    ensures Writable(h1, l1, r) && Writable(h1, l1, x)
    ensures Lookup(h1, r, path[0]) == Some(Object(x)) && l1.place[x] == ChildPlace(l1.place[r], path[0])
    ensures Exec(h, r, path, e) == Exec(h1, x, rest, e) && ExecAllowed(h, r, path, e) == ExecAllowed(h1, x, rest, e)
  {
    GetStep(h, l, r, path[0], n);
    GetLabelled(h, l, r, path[0]);
    DownExec(h, r, path, e, h1, x, rest);
  }

  lemma {:induction false} BelowSim(h: Heap, l: Labels, r: Ref, v: Overlay, path: seq<string>, e: Edit, n: nat)
    requires Writable(h, l, r) && Sim(h, r, v, n) && n > |path| && ExecAllowed(h, r, path, e) && path != []
    requires var f := GetItem(h, r, path[0]).1; f.Some? && f.value.Object?
    ensures WellFormed(Exec(h, r, path, e).0) && Sim(Exec(h, r, path, e).0, r, ApplyOver(v, path, e), n)
    decreases |path|, 0
  {
    var k, rest, m := path[0], path[1..], n - 1;
    var (h1, f) := GetItem(h, r, k);
    var x, l1 := f.value.ref, GetLabels(h, l, r, k);
    DownReady(h, l, r, path, e, n, h1, l1, x, rest);
    OpenedAt(h, l, r, v, k, n, h1, x);
    var o, w := Down(v, k).value, Opened(v, k);
    DownSim(h1, l1, r, w, k, x, o, rest, e, n, m);
    OverDown(v, path, e, k, o, rest);
  }

  lemma OverDown(v: Overlay, path: seq<string>, e: Edit, k: string, o: Own, rest: seq<string>)
    requires path != [] && k == path[0] && rest == path[1..] && Down(v, k) == Some(o) && (o.OwnData? || o.OwnDict?)
    ensures ApplyOver(v, path, e) == Opened(v, k).(own := Opened(v, k).own[k := ExecOwn(o, rest, e)])
  {
  }

  /**
   Reverting a key gives back what the base has exactly when the layer does not hold the key in both forms, or the
   base has it as a plain attribute; else the own mutable value comes to light.
   */
  lemma RevertExactly(h: Heap, l: Labels, r: Ref, k: string)
    requires Writable(h, l, r) && IsLayer(h, r) && h.objs[r].base.Some? && RevertItem(h, r, k).Some?
    ensures var h', b := RevertItem(h, r, k).value, h.objs[r].base.value;
            && WellFormed(h') && IsLayer(h', r) && IsLayer(h', b)
            && (Lookup(h', r, k) == Lookup(h', b, k)
                <==> k !in h.objs[r].plain || k !in h.objs[r].mutable || BasePlain(h, r, k).Some?)
  {
    var h', b := RevertItem(h, r, k).value, h.objs[r].base.value;
    ApplyConfined(h, l, r, Revert(k));
    assert h' == Apply(h, r, Revert(k)).0;
    assert ObjectOk(h, r) && ObjectOk(h', r) && OwnPlaced(h, l, r);
    BaseStays(h, l, h', r, map[], 0);
    BaseBlind(h, l, h', r);
    UntouchedLookup(h, l, h', b, k);
    if k in h.objs[r].mutable {
      MutableAbove(h, l, r, k);
      MutableAbove(h, l, b, k);
    }
  }

  /** An empty layer over the root. */
  function OneLayer(): Heap {
    Heap(map[0 := Layer(None, map[], map[]), 1 := Layer(Some(0), map[], map[])], 2)
  }

  /** A value set, then a plain one over it: a revert gives back the hidden value, not that there was nothing. */
  lemma HiddenComesBack() returns (h1: Heap, h2: Heap, h3: Heap)
    ensures WellFormed(OneLayer()) && h1 == Apply(OneLayer(), 1, SetBox("a", [5])).0
    ensures WellFormed(h1) && h2 == Apply(h1, 1, SetAtom("a", 7)).0
    ensures WellFormed(h2) && h3 == Apply(h2, 1, Revert("a")).0 && Lookup(h2, 1, "a") == Some(Immutable(7))
    ensures WellFormed(h3) && Lookup(h3, 0, "a") == None && Lookup(h3, 1, "a") == Some(Object(2))
    ensures h3.objs[2] == Box([5])
  {
    assert ObjectOk(OneLayer(), 0) && ObjectOk(OneLayer(), 1);
    h1 := Apply(OneLayer(), 1, SetBox("a", [5])).0;
    assert ObjectOk(h1, 0) && ObjectOk(h1, 1) && ObjectOk(h1, 2);
    h2 := Apply(h1, 1, SetAtom("a", 7)).0;
    assert ObjectOk(h2, 0) && ObjectOk(h2, 1) && ObjectOk(h2, 2);
    h3 := Apply(h2, 1, Revert("a")).0;
    assert ObjectOk(h3, 0) && ObjectOk(h3, 1) && ObjectOk(h3, 2);
  }

  // ---- runs ----

  datatype Op = Op(path: seq<string>, edit: Edit)

  /** All operations of a run, one after the other. */
  ghost function Run(h: Heap, l: Labels, r: Ref, ops: seq<Op>): (Heap, Labels)
    requires Writable(h, l, r)
    decreases |ops|
  {
    if |ops| == 0 then (h, l)
    else
      ExecConfined(h, l, r, ops[0].path, ops[0].edit);
      Run(Exec(h, r, ops[0].path, ops[0].edit).0, ExecLabels(h, l, r, ops[0].path, ops[0].edit), r, ops[1..])
  }

  ghost predicate RunAllowed(h: Heap, l: Labels, r: Ref, ops: seq<Op>)
    requires Writable(h, l, r)
    decreases |ops|
  {
    |ops| > 0 ==>
      && ExecAllowed(h, r, ops[0].path, ops[0].edit)
      && (ExecConfined(h, l, r, ops[0].path, ops[0].edit);
          RunAllowed(Exec(h, r, ops[0].path, ops[0].edit).0, ExecLabels(h, l, r, ops[0].path, ops[0].edit), r,
                     ops[1..]))
  }

  function RunOver(v: Overlay, ops: seq<Op>): Overlay
    decreases |ops|
  {
    if |ops| == 0 then v else RunOver(ApplyOver(v, ops[0].path, ops[0].edit), ops[1..])
  }

  lemma {:induction false} RunConfined(h: Heap, l: Labels, r: Ref, ops: seq<Op>)
    requires Writable(h, l, r)
    ensures var (h', l') := Run(h, l, r, ops); Confined(h, l, h', l', l.place[r])
    decreases |ops|
  {
    if ops != [] {
      var h1, l1 := Exec(h, r, ops[0].path, ops[0].edit).0, ExecLabels(h, l, r, ops[0].path, ops[0].edit);
      ExecConfined(h, l, r, ops[0].path, ops[0].edit);
      RunConfined(h1, l1, r, ops[1..]);
      var (h', l') := Run(h, l, r, ops);
      ConfinedTransitive(h, l, h1, l1, h', l', l.place[r], l.place[r]);
    }
  }

  /** Isolation: whatever is done to r, reverts included, allowed or not, nothing apart from r looks different. */
  lemma RunIsolated(h: Heap, l: Labels, r: Ref, ops: seq<Op>, x: Ref, n: nat)
    requires Writable(h, l, r) && x in h.objs && Apart(l, l.place[x], l.place[r])
    ensures var (h', _) := Run(h, l, r, ops);
            WellFormed(h') && x in h'.objs && View(h', x, n) == View(h, x, n)
  {
    RunConfined(h, l, r, ops);
    var (h', l') := Run(h, l, r, ops);
    ConfinedInvisible(h, l, h', l', l.place[r], x, n);
  }

  /** Refinement: an allowed run does to a layer what it does to the overlay that it is. */
  lemma {:induction false} RunSim(h: Heap, l: Labels, r: Ref, v: Overlay, ops: seq<Op>, n: nat)
    requires Writable(h, l, r) && Sim(h, r, v, n) && RunAllowed(h, l, r, ops)
    requires forall op :: op in ops ==> n > |op.path|
    ensures var (h', _) := Run(h, l, r, ops); WellFormed(h') && Sim(h', r, RunOver(v, ops), n)
    decreases |ops|
  {
    if ops != [] {
      assert ops == [ops[0]] + ops[1..];
      var path, e := ops[0].path, ops[0].edit;
      ExecConfined(h, l, r, path, e);
      ExecSim(h, l, r, v, path, e, n);
      RunSim(Exec(h, r, path, e).0, ExecLabels(h, l, r, path, e), r, ApplyOver(v, path, e), ops[1..], n);
    }
  }

  /** And so it shows what the overlay shows. */
  lemma RunShows(h: Heap, l: Labels, r: Ref, v: Overlay, ops: seq<Op>, n: nat)
    requires Writable(h, l, r) && Sim(h, r, v, n) && RunAllowed(h, l, r, ops) && n > 0
    requires forall op :: op in ops ==> n > |op.path|
    ensures var (h', _) := Run(h, l, r, ops);
            WellFormed(h') && r in h'.objs && View(h', r, n) == Show(RunOver(v, ops), n)
  {
    RunSim(h, l, r, v, ops, n);
    SimShows(Run(h, l, r, ops).0, r, RunOver(v, ops), n);
  }

  /**
   A copy is a snapshot: after any allowed run on it, reverts included, it shows the overlay that the run makes over
   the base's view at the moment of copying, and everything older, the base included, shows what it showed before.
   */
  lemma Snapshot(h: Heap, l: Labels, r: Ref, ops: seq<Op>, x: Ref, n: nat)
    requires Labelled(h, l) && IsLayer(h, r) && x in h.objs && n > 0
    requires Writable(CowHeap(h, r), CowLabels(h, l, r), h.next)
    requires RunAllowed(CowHeap(h, r), CowLabels(h, l, r), h.next, ops)
    requires forall op :: op in ops ==> n > |op.path|
    ensures var (h', _) := Run(CowHeap(h, r), CowLabels(h, l, r), h.next, ops);
            && WellFormed(h') && x in h'.objs && h.next in h'.objs
            && View(h, r, n).Dict? && View(h', h.next, n) == Show(RunOver(Overlay(View(h, r, n).m, map[]), ops), n)
            && View(h', x, n) == View(h, x, n)
  {
    CowLabelled(h, l, r);
    CowView(h, l, r, x, n);
    CowView(h, l, r, r, n);
    var h0, l0 := CowHeap(h, r), CowLabels(h, l, r);
    assert l0.place[x] == l.place[x] by {
      Fresh(h);
    }
    ViewAt(h, r, n, "");
    EmptyLayerSim(h0, r, h.next, View(h, r, n).m, n);
    RunIsolated(h0, l0, h.next, ops, x, n);
    RunShows(h0, l0, h.next, Overlay(View(h, r, n).m, map[]), ops, n);
  }

  // ---- overlays and plain maps ----

  lemma ShowAt(v: Overlay, k: string, n: nat)
    requires n > 0
    ensures k in Show(v, n).m <==> ShowKey(v, k, n).Some?
    ensures k in Show(v, n).m ==> Show(v, n).m[k] == ShowKey(v, k, n).value
  {
  }

  /** One key of the overlay changed. */
  lemma ShowWithKey(v: Overlay, k: string, o: Own, n: nat)
    requires n > 0
    ensures Show(v.(own := v.own[k := o]), n) == WithKey(Show(v, n), k, ShowOwn(o, n - 1))
  {
    var v' := v.(own := v.own[k := o]);
    var a, b := Show(v', n).m, WithKey(Show(v, n), k, ShowOwn(o, n - 1)).m;
    forall j
      ensures (j in a <==> j in b) && (j in a ==> a[j] == b[j])
    {
      ShowAt(v, j, n);
      ShowAt(v', j, n);
      assert ShowKey(v', j, n) == if j == k then ShowOwn(o, n - 1) else ShowKey(v, j, n);
    }
    assert a.Keys == b.Keys;
    assert a == b;
  }

  lemma EmptyShows(m: map<string, Tree>, n: nat)
    requires n > 0
    ensures Show(Overlay(m, map[]), n) == Dict(m)
  {
    var a := Show(Overlay(m, map[]), n).m;
    forall k
      ensures (k in a <==> k in m) && (k in a ==> a[k] == m[k])
    {
      ShowAt(Overlay(m, map[]), k, n);
    }
    assert a.Keys == m.Keys;
    assert a == m;
  }

  lemma EditIsPlain(v: Overlay, e: Edit, n: nat)
    requires n > 0 && !e.Revert?
    ensures Show(EditOver(v, e), n) == EditTree(Show(v, n), n, e)
  {
    match e {
      case SetAtom(k, a) => ShowWithKey(v, k, OwnAtom(a), n);
      case SetBox(k, content) => ShowWithKey(v, k, OwnData(content), n);
      case SetLayer(k) =>
        ShowWithKey(v, k, OwnDict(Overlay(map[], map[])), n);
        if n > 1 {
          EmptyShows(map[], n - 1);
        }
      case Delete(k) => ShowWithKey(v, k, OwnGone, n);
      case _ =>
    }
  }

  /** What the key leads to is what the dictionary shows there. */
  lemma DownShows(v: Overlay, k: string, n: nat)
    requires n > 1
    ensures ShowKey(v, k, n) ==
            if Down(v, k).Some? then ShowOwn(Down(v, k).value, n - 1) else if k in v.base && k !in v.own
                 then Some(Cut) else None
  {
    if k !in v.own && k in v.base && v.base[k].Dict? {
      EmptyShows(v.base[k].m, n - 1);
    }
  }

  /** But for reverts, an overlay is a plain nested map: an operation shows as the same operation on the map shown. */
  lemma {:induction false} OverIsPlain(v: Overlay, path: seq<string>, e: Edit, n: nat)
    requires n > |path| && !e.Revert?
    ensures Show(ApplyOver(v, path, e), n) == ApplyTree(Show(v, n), n, path, e)
    decreases |path|
  {
    if path == [] {
      EditIsPlain(v, e, n);
    } else {
      var k, rest, m := path[0], path[1..], n - 1;
      ShowAt(v, k, n);
      DownShows(v, k, n);
      var o := Down(v, k);
      if o.Some? && o.value.OwnDict? {
        OverIsPlain(o.value.below, rest, e, m);
        ShowWithKey(v, k, OwnDict(ApplyOver(o.value.below, rest, e)), n);
        DownTree(Show(v, n), n, path, e, rest, m);
      } else if o.Some? && o.value.OwnData? {
        ShowWithKey(v, k, EditData(o.value.content, rest, e), n);
        DownTree(Show(v, n), n, path, e, rest, m);
      } else {
        StuckPlain(Show(v, n), n, path, e);
      }
    }
  }

  lemma StuckPlain(t: Tree, n: nat, path: seq<string>, e: Edit)
    requires path != [] && t.Dict? && (path[0] in t.m ==> t.m[path[0]].Leaf? || t.m[path[0]].Cut?)
    ensures ApplyTree(t, n, path, e) == t
  {
    if path[0] in t.m && n > 0 {
      assert ApplyTree(t.m[path[0]], n - 1, path[1..], e) == t.m[path[0]];
    }
  }
}
