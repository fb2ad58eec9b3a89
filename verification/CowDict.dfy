/**
 Copy-on-write dictionaries. A dictionary is a layer over a base layer; a key is held either as a
 plain attribute (immutable values, and the deletion marker) or as a "mutable" attribute, whose value
 is an object of its own. Layers and mutable values live in one heap, so that sharing shows.
 */
module CowDict {
  import opened Sequences

  type Ref = nat

  /** What a plain attribute holds. The marker is the empty tuple, which deletion stores. */
  datatype Plain = Atom(v: int) | Marker

  /** A box is a list or dictionary of Python's; its content is copied by `copy`. */
  datatype Obj =
    | Box(content: seq<int>)
    | Layer(base: Option<Ref>, plain: map<string, Plain>, mutable: map<string, Ref>)

  datatype Heap = Heap(objs: map<Ref, Obj>, next: Ref)

  datatype Found = Immutable(v: int) | Object(ref: Ref)

  /** COWDictBase, the layer every dictionary starts from. */
  const ROOT: Ref := 0

  predicate IsLayer(h: Heap, r: Ref) {
    r in h.objs && h.objs[r].Layer?
  }

  /** No dangling references; a base is older than what was built on it. */
  ghost predicate WellFormed(h: Heap) {
    forall r {:trigger ObjectOk(h, r)} :: r in h.objs ==> ObjectOk(h, r)
  }

  ghost predicate ObjectOk(h: Heap, r: Ref)
    requires r in h.objs
  {
    && r < h.next
    && (h.objs[r].Layer? ==>
          && (h.objs[r].base.Some? ==> h.objs[r].base.value < r && IsLayer(h, h.objs[r].base.value))
          && (forall k :: k in h.objs[r].mutable ==> h.objs[r].mutable[k] in h.objs))
  }

  // ---- attribute lookup along the bases, as getattr does it ----

  function GetPlain(h: Heap, r: Ref, k: string): Option<Plain>
    requires WellFormed(h) && IsLayer(h, r)
    decreases r
  {
    assert ObjectOk(h, r);
    var o := h.objs[r];
    if k in o.plain then Some(o.plain[k]) else if o.base.Some? then GetPlain(h, o.base.value, k) else None
  }

  function GetMutable(h: Heap, r: Ref, k: string): (v: Option<Ref>)
    requires WellFormed(h) && IsLayer(h, r)
    ensures v.Some? ==> v.value in h.objs
    decreases r
  {
    assert ObjectOk(h, r);
    var o := h.objs[r];
    if k in o.mutable then Some(o.mutable[k]) else if o.base.Some? then GetMutable(h, o.base.value, k) else None
  }

  /** `__getreadonly__`: what a key stands for. A plain attribute anywhere hides every mutable one. */
  function Lookup(h: Heap, r: Ref, k: string): (f: Option<Found>)
    requires WellFormed(h) && IsLayer(h, r)
    ensures f.Some? && f.value.Object? ==> f.value.ref in h.objs
  {
    match GetPlain(h, r, k)
    case Some(Atom(v)) => Some(Immutable(v))
    case Some(Marker) => None
    case None => var o := GetMutable(h, r, k); if o.Some? then Some(Object(o.value)) else None
  }

  // ---- the operations ----

  function Alloc(h: Heap, o: Obj): Heap {
    Heap(h.objs[h.next := o], h.next + 1)
  }

  /** `copy()` of a mutable value: a box is copied, a nested layer gets a layer of its own. */
  function CopyOf(h: Heap, r: Ref): Obj
    requires r in h.objs
  {
    match h.objs[r]
    case Box(content) => Box(content)
    case Layer(_, _, _) => Layer(Some(r), map[], map[])
  }

  function PutPlain(h: Heap, r: Ref, k: string, p: Plain): Heap
    requires IsLayer(h, r)
  {
    h.(objs := h.objs[r := h.objs[r].(plain := h.objs[r].plain[k := p])])
  }

  function PutMutable(h: Heap, r: Ref, k: string, v: Ref): Heap
    requires IsLayer(h, r)
  {
    h.(objs := h.objs[r := h.objs[r].(mutable := h.objs[r].mutable[k := v])])
  }

  lemma Fresh(h: Heap)
    requires WellFormed(h)
    ensures h.next !in h.objs
  {
    assert h.next in h.objs ==> ObjectOk(h, h.next);
  }

  lemma AllocOk(h: Heap, o: Obj)
    requires WellFormed(h)
    requires o.Layer? ==> o.mutable == map[] && (o.base.Some? ==> IsLayer(h, o.base.value))
    ensures WellFormed(Alloc(h, o))
  {
    var h' := Alloc(h, o);
    Fresh(h);
    if o.Layer? && o.base.Some? {
      assert ObjectOk(h, o.base.value);
    }
    forall r | r in h'.objs
      ensures ObjectOk(h', r)
    {
      if r in h.objs {
        assert ObjectOk(h, r);
      }
    }
  }

  /** Rewriting one object, with the same base, and mutable values that exist. */
  lemma ReplaceOk(h: Heap, r: Ref, o: Obj)
    requires WellFormed(h) && r in h.objs && (o.Layer? <==> h.objs[r].Layer?)
    requires o.Layer? ==> o.base == h.objs[r].base && forall k :: k in o.mutable ==> o.mutable[k] in h.objs
    ensures WellFormed(h.(objs := h.objs[r := o]))
  {
    var h' := h.(objs := h.objs[r := o]);
    forall q | q in h'.objs
      ensures ObjectOk(h', q)
    {
      assert ObjectOk(h, q);
    }
  }

  lemma PutOk(h: Heap, r: Ref, k: string, v: Ref)
    requires WellFormed(h) && IsLayer(h, r) && v in h.objs
    ensures WellFormed(PutMutable(h, r, k, v))
  {
    assert ObjectOk(h, r);
    ReplaceOk(h, r, h.objs[r].(mutable := h.objs[r].mutable[k := v]));
  }

  /** A new object as the mutable value of a key. */
  function PutNew(h: Heap, r: Ref, k: string, o: Obj): Heap
    requires WellFormed(h) && IsLayer(h, r)
  {
    assert ObjectOk(h, r);
    PutMutable(Alloc(h, o), r, k, h.next)
  }

  /** The key stands for a mutable value that an ancestor holds. */
  predicate Copies(h: Heap, r: Ref, k: string)
    requires WellFormed(h) && IsLayer(h, r)
  {
    var f := Lookup(h, r, k);
    f.Some? && f.value.Object? && k !in h.objs[r].mutable
  }

  /** `__getitem__`: reading a mutable value of an ancestor leaves a copy of it in the layer. */
  function GetItem(h: Heap, r: Ref, k: string): (g: (Heap, Option<Found>))
    requires WellFormed(h) && IsLayer(h, r)
    ensures WellFormed(g.0) && IsLayer(g.0, r)
    ensures g.1.Some? && g.1.value.Object? ==> g.1.value.ref in g.0.objs
  {
    var f := Lookup(h, r, k);
    if Copies(h, r, k) then
      Fresh(h);
      AllocOk(h, CopyOf(h, f.value.ref));
      PutOk(Alloc(h, CopyOf(h, f.value.ref)), r, k, h.next);
      (PutNew(h, r, k, CopyOf(h, f.value.ref)), Some(Object(h.next)))
    else (h, f)
  }

  /** `__revertitem__`: drops the own plain attribute if there is one, else the own mutable one, else fails. */
  function RevertItem(h: Heap, r: Ref, k: string): Option<Heap>
    requires IsLayer(h, r)
  {
    var o := h.objs[r];
    if k in o.plain then Some(h.(objs := h.objs[r := o.(plain := o.plain - {k})]))
    else if k in o.mutable then Some(h.(objs := h.objs[r := o.(mutable := o.mutable - {k})]))
    else None
  }

  // ---- what a caller does: walk down some keys, then edit ----

  datatype Edit =
    | SetAtom(k: string, v: int)
    | SetBox(k: string, content: seq<int>)
    | SetLayer(k: string)
    | Delete(k: string)
    | Revert(k: string)
    | Overwrite(content: seq<int>)

  /** A mutable value handed to `__setitem__` is new: the caller keeps no reference to it. */
  function Apply(h: Heap, r: Ref, e: Edit): (Heap, bool)
    requires WellFormed(h) && r in h.objs
  {
    match e
    case SetAtom(k, v) => if h.objs[r].Layer? then (PutPlain(h, r, k, Atom(v)), true) else (h, false)
    case SetBox(k, content) =>
      if h.objs[r].Layer? then (PutNew(h, r, k, Box(content)), true) else (h, false)
    case SetLayer(k) =>
      if h.objs[r].Layer? then (PutNew(h, r, k, Layer(Some(ROOT), map[], map[])), true) else (h, false)
    case Delete(k) => if h.objs[r].Layer? then (PutPlain(h, r, k, Marker), true) else (h, false)
    case Revert(k) =>
      if h.objs[r].Layer? && RevertItem(h, r, k).Some? then (RevertItem(h, r, k).value, true) else (h, false)
    case Overwrite(content) =>
      if h.objs[r].Box? then (h.(objs := h.objs[r := Box(content)]), true) else (h, false)
  }

  /** `d[k1][k2]...` and then the edit; a key that is missing or leads to no object ends it there. */
  function Exec(h: Heap, r: Ref, path: seq<string>, e: Edit): (Heap, bool)
    requires WellFormed(h) && r in h.objs
    decreases |path|
  {
    if path == [] then Apply(h, r, e)
    else if h.objs[r].Box? then (h, false)
    else
      var (h', f) := GetItem(h, r, path[0]);
      if f.Some? && f.value.Object? then Exec(h', f.value.ref, path[1..], e) else (h', false)
  }

  /** The layers in one heap, with the operations of the metaclass. */
  class CowStore {
    var heap: Heap

    constructor ()
      ensures WellFormed(heap) && heap.objs == map[ROOT := Layer(None, map[], map[])]
    {
      heap := Heap(map[ROOT := Layer(None, map[], map[])], 1);
    }

    /** getattr of a plain name. */
    method PlainAttr(r: Ref, k: string) returns (p: Option<Plain>)
      requires WellFormed(heap) && IsLayer(heap, r)
      ensures p == GetPlain(heap, r, k)
    {
      var cls := r;
      while k !in heap.objs[cls].plain
        invariant IsLayer(heap, cls) && GetPlain(heap, cls, k) == GetPlain(heap, r, k)
        decreases cls
      {
        assert ObjectOk(heap, cls);
        if heap.objs[cls].base.None? {
          return None;
        }
        cls := heap.objs[cls].base.value;
      }
      return Some(heap.objs[cls].plain[k]);
    }

    /** getattr of a mutable name. */
    method MutableAttr(r: Ref, k: string) returns (v: Option<Ref>)
      requires WellFormed(heap) && IsLayer(heap, r)
      ensures v == GetMutable(heap, r, k)
    {
      var cls := r;
      while k !in heap.objs[cls].mutable
        invariant IsLayer(heap, cls) && GetMutable(heap, cls, k) == GetMutable(heap, r, k)
        decreases cls
      {
        assert ObjectOk(heap, cls);
        if heap.objs[cls].base.None? {
          return None;
        }
        cls := heap.objs[cls].base.value;
      }
      return Some(heap.objs[cls].mutable[k]);
    }

    method Cow(r: Ref) returns (child: Ref)
      requires WellFormed(heap) && IsLayer(heap, r)
      modifies this
      ensures child == old(heap).next && heap == Alloc(old(heap), Layer(Some(r), map[], map[]))
    {
      child := heap.next;
      heap := Heap(heap.objs[child := Layer(Some(r), map[], map[])], heap.next + 1);
    }

    /** `__setitem__` of an immutable value. */
    method SetItemPlain(r: Ref, k: string, p: Plain)
      requires IsLayer(heap, r)
      modifies this
      ensures heap == PutPlain(old(heap), r, k, p)
    {
      var own := heap.objs[r];
      heap := heap.(objs := heap.objs[r := own.(plain := own.plain[k := p])]);
    }

    /** `__setitem__` of a mutable value. */
    method SetItemMutable(r: Ref, k: string, v: Ref)
      requires IsLayer(heap, r)
      modifies this
      ensures heap == PutMutable(old(heap), r, k, v)
    {
      var own := heap.objs[r];
      heap := heap.(objs := heap.objs[r := own.(mutable := own.mutable[k := v])]);
    }

    method DelItem(r: Ref, k: string)
      requires IsLayer(heap, r)
      modifies this
      ensures heap == PutPlain(old(heap), r, k, Marker)
    {
      SetItemPlain(r, k, Marker);
    }

    /** `__getmutable__`: the own value, or a copy of the inherited one put in place. */
    method GetMutableItem(r: Ref, k: string, readonly: bool) returns (v: Option<Ref>)
      requires WellFormed(heap) && IsLayer(heap, r)
      modifies this
      ensures var o := GetMutable(old(heap), r, k);
              if o.None? || readonly || k in old(heap).objs[r].mutable then heap == old(heap) && v == o
              else v == Some(old(heap).next) && heap == PutNew(old(heap), r, k, CopyOf(old(heap), o.value))
    {
      if k in heap.objs[r].mutable {
        return Some(heap.objs[r].mutable[k]);
      }
      v := MutableAttr(r, k);
      if v.None? || readonly {
        return;
      }
      assert ObjectOk(heap, r);
      var copy := CopyOf(heap, v.value);
      v := Some(heap.next);
      heap := Heap(heap.objs[heap.next := copy], heap.next + 1);
      SetItemMutable(r, k, v.value);
    }

    /** `__getitem__`; None stands for the KeyError. */
    method Get(r: Ref, k: string) returns (f: Option<Found>)
      requires WellFormed(heap) && IsLayer(heap, r)
      modifies this
      ensures (heap, f) == GetItem(old(heap), r, k)
    {
      var p := PlainAttr(r, k);
      if p.Some? {
        return if p.value.Marker? then None else Some(Immutable(p.value.v));
      }
      var v := GetMutableItem(r, k, false);
      f := if v.Some? then Some(Object(v.value)) else None;
    }

    method HasKey(r: Ref, k: string) returns (has: bool)
      requires WellFormed(heap) && IsLayer(heap, r)
      modifies this
      ensures heap == old(heap) && (has <==> Lookup(heap, r, k).Some?)
    {
      var p := PlainAttr(r, k);
      if p.Some? {
        return !p.value.Marker?;
      }
      var v := GetMutableItem(r, k, true);
      has := v.Some?;
    }

    /** False stands for the AttributeError of delattr. */
    method Revert(r: Ref, k: string) returns (ok: bool)
      requires IsLayer(heap, r)
      modifies this
      ensures var reverted := RevertItem(old(heap), r, k);
              ok == reverted.Some? && heap == if ok then reverted.value else old(heap)
    {
      var own := heap.objs[r];
      if k in own.plain {
        heap := heap.(objs := heap.objs[r := own.(plain := own.plain - {k})]);
        return true;
      }
      ok := k in own.mutable;
      if ok {
        heap := heap.(objs := heap.objs[r := own.(mutable := own.mutable - {k})]);
      }
    }
  }
}
