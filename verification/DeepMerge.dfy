/**
 Merging of settings: `dict_merge` writes the values of one nested dictionary over another in place.
 Everything that is not a dictionary, lists included, is one value.
 */
module DeepMerge {
  import opened Sequences

  datatype Tree = Leaf(v: string) | Dict(m: map<string, Tree>)

  /** The value at a key after merging s over t. A dictionary is never replaced by something else. */
  function Merge(t: Tree, s: Tree): Tree
    decreases t
  {
    if t.Leaf? then s
    else if s.Leaf? then t
    else Dict(map k | k in t.m.Keys + s.m.Keys ::
                if k in t.m then (if k in s.m then Merge(t.m[k], s.m[k]) else t.m[k]) else s.m[k])
  }

  // ---- what merging means ----

  lemma MergeAt(t: Tree, s: Tree, k: string)
    requires t.Dict? && s.Dict?
    ensures var r := Merge(t, s);
            && r.Dict? && r.m.Keys == t.m.Keys + s.m.Keys
            && (k in t.m && k in s.m ==> r.m[k] == Merge(t.m[k], s.m[k]))
            && (k in t.m && k !in s.m ==> r.m[k] == t.m[k])
            && (k !in t.m && k in s.m ==> r.m[k] == s.m[k])
  {
  }

  lemma TreesEqual(a: Tree, b: Tree)
    requires a.Dict? && b.Dict? && a.m.Keys == b.m.Keys
    requires forall k :: k in a.m ==> a.m[k] == b.m[k]
    ensures a == b
  {
    assert a.m == b.m;
  }

  /** Merging overrides one after another is merging once with the overrides merged beforehand. */
  lemma {:induction false} MergeAssociative(t: Tree, s: Tree, u: Tree)
    ensures Merge(Merge(t, s), u) == Merge(t, Merge(s, u))
    decreases t
  {
    if t.Dict? && s.Dict? && u.Dict? {
      var a, b := Merge(Merge(t, s), u), Merge(t, Merge(s, u));
      forall k | k in a.m
        ensures a.m[k] == b.m[k]
      {
        MergeAt(t, s, k);
        MergeAt(s, u, k);
        MergeAt(Merge(t, s), u, k);
        MergeAt(t, Merge(s, u), k);
        if k in t.m && k in s.m && k in u.m {
          MergeAssociative(t.m[k], s.m[k], u.m[k]);
        }
      }
      TreesEqual(a, b);
    }
  }

  /** Merging with itself changes nothing; so merging the same override twice is merging it once. */
  lemma {:induction false} MergeSelf(t: Tree)
    ensures Merge(t, t) == t
    decreases t
  {
    if t.Dict? {
      forall k | k in t.m
        ensures Merge(t, t).m[k] == t.m[k]
      {
        MergeAt(t, t, k);
        MergeSelf(t.m[k]);
      }
      TreesEqual(Merge(t, t), t);
    }
  }

  lemma MergeTwice(t: Tree, s: Tree)
    ensures Merge(Merge(t, s), s) == Merge(t, s)
  {
    MergeAssociative(t, s, s);
    MergeSelf(s);
  }

  /** The script's loop: overrides in the order given. */
  function MergeAll(t: Tree, overrides: seq<Tree>): Tree {
    if overrides == [] then t else Merge(MergeAll(t, overrides[..|overrides| - 1]), overrides[|overrides| - 1])
  }

  /** Any number of overrides can be merged among themselves first. */
  lemma {:induction false} MergeAllAtOnce(t: Tree, first: Tree, rest: seq<Tree>)
    ensures MergeAll(Merge(t, first), rest) == Merge(t, MergeAll(first, rest))
  {
    if rest != [] {
      MergeAllAtOnce(t, first, rest[..|rest| - 1]);
      MergeAssociative(t, MergeAll(first, rest[..|rest| - 1]), rest[|rest| - 1]);
    }
  }

  // ---- lookup by path: an independent account of the result ----

  function Get(t: Tree, path: seq<string>): Option<Tree>
    decreases |path|
  {
    if path == [] then Some(t)
    else if t.Dict? && path[0] in t.m then Get(t.m[path[0]], path[1..])
    else None
  }

  /** The shortest prefix of the path where one of the two trees does not go on as a dictionary. */
  function CommonDepth(t: Tree, s: Tree, path: seq<string>): nat
    decreases |path|
  {
    if path == [] || t.Leaf? || s.Leaf? || path[0] !in t.m || path[0] !in s.m then 0
    else 1 + CommonDepth(t.m[path[0]], s.m[path[0]], path[1..])
  }

  /** r is what two values come to: dictionaries have the keys of both, and are never replaced by something else. */
  ghost predicate Overlaid(t: Tree, s: Tree, r: Tree) {
    if t.Dict? && s.Dict? then r.Dict? && r.m.Keys == t.m.Keys + s.m.Keys else r == if t.Dict? then t else s
  }

  /**
   What a path finds after merging: follow both trees as long as both are dictionaries with the next key. Where
   that ends, the override decides, unless the target has a dictionary there and the override has no dictionary,
   or a dictionary without the next key.
   */
  lemma {:induction false} MergeLookup(t: Tree, s: Tree, path: seq<string>)
    ensures var n := CommonDepth(t, s, path);
            && n <= |path| && Get(t, path[..n]).Some? && Get(s, path[..n]).Some?
            && var t', s' := Get(t, path[..n]).value, Get(s, path[..n]).value;
               if n == |path| then Get(Merge(t, s), path).Some? && Overlaid(t', s', Get(Merge(t, s), path).value)
               else Get(Merge(t, s), path) ==
                    if t'.Dict? && (s'.Leaf? || path[n] !in s'.m) then Get(t, path) else Get(s, path)
    decreases |path|
  {
    var n := CommonDepth(t, s, path);
    if n > 0 {
      var k := path[0];
      MergeLookup(t.m[k], s.m[k], path[1..]);
      MergeAt(t, s, k);
      assert path[1..][..n - 1] == path[..n][1..];
      assert n < |path| ==> path[1..][n - 1] == path[n];
    } else if path != [] && t.Dict? && s.Dict? {
      MergeAt(t, s, path[0]);
    }
  }

  ghost predicate DictAt(t: Tree, path: seq<string>) {
    Get(t, path).Some? && Get(t, path).value.Dict?
  }

  /** Every value of the override that is no dictionary is there afterwards, but where the target has a dictionary. */
  ghost predicate Overridden(t: Tree, s: Tree, r: Tree) {
    forall path, v {:trigger Get(s, path), Leaf(v)} :: Get(s, path) == Some(Leaf(v)) && !DictAt(t, path) ==>
        Get(r, path) == Some(Leaf(v))
  }

  lemma {:induction false} OverrideWins(t: Tree, s: Tree, path: seq<string>, v: string)
    requires Get(s, path) == Some(Leaf(v)) && !DictAt(t, path)
    ensures Get(Merge(t, s), path) == Some(Leaf(v))
    decreases |path|
  {
    if path != [] && t.Dict? {
      MergeAt(t, s, path[0]);
      if path[0] in t.m {
        OverrideWins(t.m[path[0]], s.m[path[0]], path[1..], v);
      }
    }
  }

  lemma AllOverridden(t: Tree, s: Tree)
    ensures Overridden(t, s, Merge(t, s))
  {
    forall path, v | Get(s, path) == Some(Leaf(v)) && !DictAt(t, path)
      ensures Get(Merge(t, s), path) == Some(Leaf(v))
    {
      OverrideWins(t, s, path, v);
    }
  }

  /** Merging makes a dictionary only where one of the two has one. */
  lemma {:induction false} NoNewDict(t: Tree, s: Tree, path: seq<string>)
    requires !DictAt(t, path) && !DictAt(s, path)
    ensures !DictAt(Merge(t, s), path)
    decreases |path|
  {
    if path != [] && t.Dict? && s.Dict? {
      MergeAt(t, s, path[0]);
      if path[0] in t.m && path[0] in s.m {
        NoNewDict(t.m[path[0]], s.m[path[0]], path[1..]);
      }
    }
  }

  lemma {:induction false} NoDictAtAll(t: Tree, overrides: seq<Tree>, path: seq<string>)
    requires !DictAt(t, path) && forall o :: o in overrides ==> !DictAt(o, path)
    ensures !DictAt(MergeAll(t, overrides), path)
  {
    if overrides != [] {
      NoDictAtAll(t, overrides[..|overrides| - 1], path);
      NoNewDict(MergeAll(t, overrides[..|overrides| - 1]), overrides[|overrides| - 1], path);
    }
  }

  /** Of several overrides the last decides. */
  lemma LastOverrideWins(t: Tree, overrides: seq<Tree>, path: seq<string>, v: string)
    requires overrides != [] && Get(overrides[|overrides| - 1], path) == Some(Leaf(v))
    requires !DictAt(t, path) && forall i :: 0 <= i < |overrides| - 1 ==> !DictAt(overrides[i], path)
    ensures Get(MergeAll(t, overrides), path) == Some(Leaf(v))
  {
    NoDictAtAll(t, overrides[..|overrides| - 1], path);
    OverrideWins(MergeAll(t, overrides[..|overrides| - 1]), overrides[|overrides| - 1], path, v);
  }

  /** Every dictionary of the target is still a dictionary, with all its keys. */
  lemma {:induction false} DictsStay(t: Tree, s: Tree, path: seq<string>)
    requires Get(t, path).Some? && Get(t, path).value.Dict?
    ensures var r := Get(Merge(t, s), path);
            r.Some? && r.value.Dict? && Get(t, path).value.m.Keys <= r.value.m.Keys
    decreases |path|
  {
    if s.Dict? {
      if path == [] {
        MergeAt(t, s, "");
      } else {
        MergeAt(t, s, path[0]);
        if path[0] in s.m {
          DictsStay(t.m[path[0]], s.m[path[0]], path[1..]);
        }
      }
    }
  }

  // ---- the dictionaries in memory ----

  datatype Value = Scalar(v: string) | Node(d: DictNode)

  class DictNode {
    var entries: map<string, Value>
    ghost var repr: set<DictNode>
    ghost var tree: Tree

    /** A tree of dictionaries: no two entries share one. */
    ghost predicate Valid()
      reads this, repr
      decreases repr
    {
      && this in repr && tree.Dict? && tree.m.Keys == entries.Keys
      && (forall k :: k in entries && entries[k].Scalar? ==> tree.m[k] == Leaf(entries[k].v))
      && (forall k :: k in entries && entries[k].Node? ==>
            var d := entries[k].d;
            d in repr && d.repr <= repr && this !in d.repr && d.Valid() && tree.m[k] == d.tree)
      && (forall j, k :: j in entries && k in entries && j != k && entries[j].Node? && entries[k].Node? ==>
            entries[j].d.repr !! entries[k].d.repr)
    }

    constructor ()
      ensures Valid() && fresh(repr) && repr == {this} && tree == Dict(map[]) && entries == map[]
    {
      entries := map[];
      repr := {this};
      tree := Dict(map[]);
    }

    /** Valid but for the entry k, whose dictionary is valid by itself and apart from the others. */
    ghost predicate ValidBut(k: string)
      requires k in entries
      reads this, repr, if entries[k].Node? then {entries[k].d} + entries[k].d.repr else {}
    {
      var own := if entries[k].Node? then entries[k].d.repr else {};
      && this in repr && this !in own && tree.Dict? && tree.m.Keys + {k} == entries.Keys
      && (entries[k].Node? ==> entries[k].d.Valid())
      && (forall j :: j in entries && j != k && entries[j].Scalar? ==> tree.m[j] == Leaf(entries[j].v))
      && (forall j :: j in entries && j != k && entries[j].Node? ==>
            var d := entries[j].d;
            d in repr && d.repr <= repr && this !in d.repr && d.Valid() && tree.m[j] == d.tree && d.repr !! own)
      && (forall i, j ::
            i in entries && j in entries && i != j && i != k && j != k && entries[i].Node? && entries[j].Node? ==>
              entries[i].d.repr !! entries[j].d.repr)
    }

    /** Takes the dictionary at k into account. */
    ghost method Adopt(k: string)
      requires k in entries && ValidBut(k)
      modifies this`repr, this`tree
      ensures Valid() && repr == old(repr) + (if entries[k].Node? then entries[k].d.repr else {})
      ensures tree == Dict(old(tree).m[k := if entries[k].Node? then entries[k].d.tree else Leaf(entries[k].v)])
    {
      repr := repr + if entries[k].Node? then entries[k].d.repr else {};
      tree := Dict(tree.m[k := if entries[k].Node? then entries[k].d.tree else Leaf(entries[k].v)]);
    }

    /** `self[k] = v` for a value of which nothing is shared yet. */
    method Put(k: string, v: Value)
      requires Valid() && (k in entries ==> entries[k].Scalar?)
      requires v.Node? ==> v.d.Valid() && v.d.repr !! repr
      modifies this
      ensures Valid() && entries == old(entries)[k := v]
      ensures repr == old(repr) + (if v.Node? then v.d.repr else {})
      ensures tree == Dict(old(tree).m[k := if v.Node? then v.d.tree else Leaf(v.v)])
    {
      entries := entries[k := v];
      Adopt(k);
    }
  }

  ghost function TreeOf(v: Value): Tree
    reads if v.Node? then {v.d} else {}
  {
    if v.Node? then v.d.tree else Leaf(v.v)
  }

  ghost predicate ValidValue(v: Value)
    reads if v.Node? then {v.d} + v.d.repr else {}
  {
    v.Node? ==> v.d.Valid()
  }

  ghost function ReprOf(v: Value): set<DictNode>
    reads if v.Node? then {v.d} else {}
  {
    if v.Node? then v.d.repr else {}
  }

  /** What an entry of a valid dictionary stands for. */
  lemma EntryTree(d: DictNode, k: string)
    requires d.Valid() && k in d.entries
    ensures ValidValue(d.entries[k]) && d.tree.m[k] == TreeOf(d.entries[k]) && ReprOf(d.entries[k]) <= d.repr - {d}
  {
  }

  /** `copy.deepcopy` */
  method DeepCopy(v: Value) returns (r: Value)
    requires ValidValue(v)
    ensures ValidValue(r) && fresh(ReprOf(r)) && TreeOf(r) == TreeOf(v)
    decreases TreeOf(v), 3
  {
    if v.Scalar? {
      return v;
    }
    var copy := CopyDict(v.d);
    r := Node(copy);
  }

  method CopyDict(d: DictNode) returns (copy: DictNode)
    requires d.Valid()
    ensures copy.Valid() && fresh(copy.repr) && copy.tree == d.tree
    decreases d.tree, 2
  {
    copy := new DictNode();
    var todo := d.entries.Keys;
    while todo != {}
      invariant copy.Valid() && fresh(copy.repr) && todo <= d.entries.Keys
      invariant copy.tree.m.Keys == d.entries.Keys - todo
      invariant forall k :: k in copy.tree.m ==> copy.tree.m[k] == d.tree.m[k]
      decreases todo
    {
      ghost var some := SomeElement(todo);
      var k :| k in todo;
      CopyEntry(d, k, copy);
      todo := todo - {k};
    }
    TreesEqual(copy.tree, d.tree);
  }

  method CopyEntry(d: DictNode, k: string, copy: DictNode)
    requires d.Valid() && k in d.entries && copy.Valid() && copy.repr !! d.repr && k !in copy.entries
    modifies copy
    ensures copy.Valid() && fresh(copy.repr - old(copy.repr))
    ensures copy.tree == Dict(old(copy.tree).m[k := d.tree.m[k]])
    decreases d.tree, 0
  {
    EntryTree(d, k);
    assert d.tree.m[k] < d.tree;
    var w := DeepCopy(d.entries[k]);
    copy.Put(k, w);
  }

  /** The value at key k after its source entry was merged. */
  ghost function MergedAt(t: Tree, k: string, v: Tree): Tree
    requires t.Dict?
  {
    if k in t.m then Merge(t.m[k], v) else v
  }

  /**
   `dict_merge`: the target is merged in place and stays a tree of its own, the source is not written to,
   and nothing new in the target belongs to the source.
   */
  method DictMerge(target: DictNode, source: Value)
    requires target.Valid() && ValidValue(source) && target.repr !! ReprOf(source)
    modifies target.repr
    ensures target.Valid() && fresh(target.repr - old(target.repr))
    ensures target.tree == Merge(old(target.tree), TreeOf(source))
    ensures Overridden(old(target.tree), TreeOf(source), target.tree)
    decreases TreeOf(source), 3
  {
    AllOverridden(target.tree, TreeOf(source));
    if source.Scalar? {
      return;
    }
    MergeDict(target, source.d);
  }

  method MergeDict(target: DictNode, source: DictNode)
    requires target.Valid() && source.Valid() && target.repr !! source.repr
    modifies target.repr
    ensures target.Valid() && fresh(target.repr - old(target.repr))
    ensures target.tree == Merge(old(target.tree), source.tree)
    ensures Overridden(old(target.tree), source.tree, target.tree)
    decreases source.tree, 2
  {
    AllOverridden(target.tree, source.tree);
    ghost var before := target.tree;
    var todo := source.entries.Keys;
    while todo != {}
      invariant target.Valid() && fresh(target.repr - old(target.repr)) && source.Valid() && todo <= source.entries.Keys
      invariant target.tree.m.Keys == before.m.Keys + (source.entries.Keys - todo)
      invariant forall k :: k in target.tree.m ==>
                  target.tree.m[k] == if k in source.entries && k !in todo
                      then MergedAt(before, k, source.tree.m[k]) else before.m[k]
      decreases todo
    {
      ghost var some := SomeElement(todo);
      var k :| k in todo;
      MergeEntry(target, k, source);
      todo := todo - {k};
    }
    MergedTree(before, source.tree, target.tree);
  }

  lemma MergedTree(t: Tree, s: Tree, r: Tree)
    requires t.Dict? && s.Dict? && r.Dict? && r.m.Keys == t.m.Keys + s.m.Keys
    requires forall k :: k in r.m ==> r.m[k] == if k in s.m then MergedAt(t, k, s.m[k]) else t.m[k]
    ensures r == Merge(t, s)
  {
    TreesEqual(r, Merge(t, s));
  }

  method MergeEntry(target: DictNode, k: string, source: DictNode)
    requires target.Valid() && source.Valid() && target.repr !! source.repr && k in source.entries
    modifies target.repr
    ensures target.Valid() && fresh(target.repr - old(target.repr))
    ensures target.tree == Dict(old(target.tree).m[k := MergedAt(old(target.tree), k, source.tree.m[k])])
    decreases source.tree, 1
  {
    EntryTree(source, k);
    assert source.tree.m[k] < source.tree;
    if k in target.entries && target.entries[k].Node? {
      MergeChild(target, k, source.entries[k]);
    } else {
      var copy := DeepCopy(source.entries[k]);
      target.Put(k, copy);
    }
  }

  method MergeChild(target: DictNode, k: string, v: Value)
    requires target.Valid() && ValidValue(v) && target.repr !! ReprOf(v)
    requires k in target.entries && target.entries[k].Node?
    modifies target.repr
    ensures target.Valid() && fresh(target.repr - old(target.repr))
    ensures target.tree == Dict(old(target.tree).m[k := Merge(old(target.tree).m[k], TreeOf(v))])
    decreases TreeOf(v), 4
  {
    var d := target.entries[k].d;
    DictMerge(d, v);
    target.Adopt(k);
  }

  /**
   The script: all override files in order over the loaded data. Data that is no dictionary cannot take a key,
   so there the script fails at the first override that has one.
   */
  method MergeOverrides(data: Value, overrides: seq<Value>, ghost trees: seq<Tree>) returns (ok: bool)
    requires ValidValue(data) && |trees| == |overrides|
    requires forall i :: 0 <= i < |overrides| ==>
               ValidValue(overrides[i]) && trees[i] == TreeOf(overrides[i]) && ReprOf(data) !! ReprOf(overrides[i])
    modifies ReprOf(data)
    ensures data.Node? ==> ok && ValidValue(data) && TreeOf(data) == MergeAll(old(TreeOf(data)), trees)
    ensures data.Scalar? ==> (ok <==> forall i :: 0 <= i < |trees| ==> trees[i].Leaf? || trees[i].m == map[])
  {
    if data.Scalar? {
      for i := 0 to |overrides|
        invariant forall j :: 0 <= j < i ==> trees[j].Leaf? || trees[j].m == map[]
      {
        if overrides[i].Node? && overrides[i].d.entries != map[] {
          assert trees[i].m.Keys == overrides[i].d.entries.Keys != {};
          return false;
        }
        assert overrides[i].Node? ==> trees[i].m.Keys == {};
      }
      return true;
    }
    ok := true;
    for i := 0 to |overrides|
      invariant ValidValue(data) && fresh(ReprOf(data) - old(ReprOf(data)))
      invariant TreeOf(data) == MergeAll(old(TreeOf(data)), trees[..i])
      invariant forall j :: 0 <= j < |overrides| ==>
                  ValidValue(overrides[j]) && trees[j] == TreeOf(overrides[j]) && ReprOf(data) !! ReprOf(overrides[j])
    {
      assert trees[..i + 1][..i] == trees[..i];
      DictMerge(data.d, overrides[i]);
    }
    assert trees[..|trees|] == trees;
  }
}
