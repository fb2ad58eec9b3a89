/**
 The streaming back-reference codec of the recipe cache: a process sends each distinct value in full once,
 with a number, and afterwards only the number; the receiver keeps one number table per sending process.
 */
module BackRefCodec {
  import opened Sequences

  /** A set of variable names or a text; only equality matters. */
  type Value = string

  /** A Python dictionary in iteration order; a value may be None. */
  type Deps = seq<(string, Option<Value>)>

  ghost predicate DistinctKeys(d: Deps) {
    forall i, j :: 0 <= i < j < |d| ==> d[i].0 != d[j].0
  }

  /** (dep, None, None), (dep, None, num) and (dep, fs, num) */
  datatype Item = Blank(dep: string) | Back(dep: string, num: nat) | Full(dep: string, fs: Value, num: nat)

  /** What is falsy is passed through as it is. */
  datatype Message = Nothing | EmptyDict | Items(items: seq<Item>)
  datatype Input = NoDict | Dict(deps: Deps)

  ghost predicate ValidInput(input: Input) {
    input.Dict? ==> DistinctKeys(input.deps)
  }

  // ---- sender ----

  datatype Saver = Saver(saved: map<Value, nat>, count: nat)

  const FRESH := Saver(map[], 1)

  function SaveItem(s: Saver, dep: string, fs: Option<Value>): (Saver, Item) {
    if fs.None? then (s, Blank(dep))
    else if fs.value in s.saved then (s, Back(dep, s.saved[fs.value]))
    else (Saver(s.saved[fs.value := s.count], s.count + 1), Full(dep, fs.value, s.count))
  }

  function SaveItems(s: Saver, deps: Deps): (Saver, seq<Item>) {
    if deps == [] then (s, [])
    else
      var (s1, items) := SaveItems(s, deps[..|deps| - 1]);
      var (s2, item) := SaveItem(s1, deps[|deps| - 1].0, deps[|deps| - 1].1);
      (s2, items + [item])
  }

  function Save(s: Saver, input: Input): (Saver, Message) {
    match input
    case NoDict => (s, Nothing)
    case Dict(deps) => if deps == [] then (s, EmptyDict) else var (s', items) := SaveItems(s, deps); (s', Items(items))
  }

  // ---- receiver ----

  type Table = map<nat, Value>

  /** `d[key] = v` */
  function PutKey(d: Deps, key: string, v: Option<Value>): Deps {
    if exists i :: 0 <= i < |d| && d[i].0 == key then
      seq(|d|, i requires 0 <= i < |d| => if d[i].0 == key then (key, v) else d[i])
    else d + [(key, v)]
  }

  /** Afterwards the key has the value, other keys have what they had, and all keys are where they were. */
  lemma PutKeyExactly(d: Deps, key: string, v: Option<Value>)
    requires DistinctKeys(d)
    ensures var r := PutKey(d, key, v);
            && DistinctKeys(r) && |d| <= |r| <= |d| + 1
            && (forall i :: 0 <= i < |d| ==> r[i].0 == d[i].0)
            && (forall e :: e in r <==> (e.0 != key && e in d) || e == (key, v))
  {
    var r := PutKey(d, key, v);
    if exists i :: 0 <= i < |d| && d[i].0 == key {
      var i :| 0 <= i < |d| && d[i].0 == key;
      assert r[i] == (key, v);
      forall e | e in d && e.0 != key
        ensures e in r
      {
        var n :| 0 <= n < |d| && d[n] == e;
        assert r[n] == e;
      }
    }
  }

  /** None stands for the KeyError of an unknown number. */
  function RestoreItem(t: Table, item: Item): Option<(Table, Option<Value>)> {
    match item
    case Blank(_) => Some((t, None))
    case Back(_, num) => if num in t then Some((t, Some(t[num]))) else None
    case Full(_, fs, num) => Some((t[num := fs], Some(fs)))
  }

  function RestoreItems(t: Table, items: seq<Item>): Option<(Table, Deps)> {
    if |items| == 0 then Some((t, []))
    else
      var r := RestoreItems(t, items[..|items| - 1]);
      if r.None? then None
      else
        var last := items[|items| - 1];
        var v := RestoreItem(r.value.0, last);
        if v.None? then None else Some((v.value.0, PutKey(r.value.1, last.dep, v.value.1)))
  }

  /** Where restoring stops: at a back reference that what was restored before it does not know. */
  function FirstUnknown(t: Table, items: seq<Item>): (i: nat)
    requires RestoreItems(t, items).None?
    ensures i < |items| && RestoreItems(t, items[..i]).Some? && items[i].Back?
            && items[i].num !in RestoreItems(t, items[..i]).value.0
    decreases |items|
  {
    var front := items[..|items| - 1];
    if RestoreItems(t, front).None? then
      var i := FirstUnknown(t, front);
      assert front[..i] == items[..i];
      i
    else |front|
  }

  lemma {:induction false} StopsThere(t: Table, items: seq<Item>, i: nat)
    requires i < |items| && RestoreItems(t, items[..i]).Some? && RestoreItems(t, items[..i + 1]).None?
    ensures RestoreItems(t, items).None? && FirstUnknown(t, items) == i
    decreases |items|
  {
    var front := items[..|items| - 1];
    if i + 1 == |items| {
      assert items[..i + 1] == items && items[..i] == front;
    } else {
      assert front[..i] == items[..i] && front[..i + 1] == items[..i + 1];
      StopsThere(t, front, i);
    }
  }

  function Restore(t: Table, m: Message): Option<(Table, Input)> {
    match m
    case Nothing => Some((t, NoDict))
    case EmptyDict => Some((t, Dict([])))
    case Items(items) => var r := RestoreItems(t, items); if r.None? then None else Some((r.value.0, Dict(r.value.1)))
  }

  /** The class attributes of SiggenRecipeInfo in one process. */
  class SiggenStream {
    var saveMap: map<Value, nat>
    var saveCount: nat
    var restoreMap: map<nat, Table>
    var store: map<Value, Value>

    constructor ()
      ensures SaverView() == FRESH && restoreMap == map[] && StoreOk()
    {
      saveMap, saveCount, restoreMap, store := map[], 1, map[], map[];
    }

    ghost function SaverView(): Saver
      reads this
    {
      Saver(saveMap, saveCount)
    }

    /** Interned values are the values themselves. */
    ghost predicate StoreOk()
      reads this
    {
      forall v :: v in store ==> store[v] == v
    }

    method Reset()
      modifies this
      ensures SaverView() == FRESH && restoreMap == map[] && store == old(store)
    {
      saveMap := map[];
      saveCount := 1;
      restoreMap := map[];
    }

    /** `_save` */
    method SaveDict(input: Input) returns (m: Message)
      modifies this`saveMap, this`saveCount
      ensures (SaverView(), m) == Save(old(SaverView()), input)
    {
      if input.NoDict? {
        return Nothing;
      }
      var deps := input.deps;
      if deps == [] {
        return EmptyDict;
      }
      var ret: seq<Item> := [];
      for i := 0 to |deps|
        invariant (SaverView(), ret) == SaveItems(old(SaverView()), deps[..i])
      {
        assert deps[..i + 1][..i] == deps[..i];
        var (dep, fs) := deps[i];
        if fs.None? {
          ret := ret + [Blank(dep)];
        } else if fs.value in saveMap {
          ret := ret + [Back(dep, saveMap[fs.value])];
        } else {
          saveMap := saveMap[fs.value := saveCount];
          ret := ret + [Full(dep, fs.value, saveCount)];
          saveCount := saveCount + 1;
        }
      }
      assert deps[..|deps|] == deps;
      m := Items(ret);
    }

    /** `_restore`; on a KeyError the table keeps what was received before it. */
    method RestoreDict(m: Message, pid: nat) returns (r: Option<Input>)
      requires StoreOk()
      modifies this`restoreMap, this`store
      ensures StoreOk()
      ensures var t := if pid in old(restoreMap) then old(restoreMap)[pid] else map[];
              var want := Restore(t, m);
              if want.None? then
                && r.None?
                && var i := FirstUnknown(t, m.items);
                   restoreMap == old(restoreMap)[pid := RestoreItems(t, m.items[..i]).value.0]
              else r == Some(want.value.1) && restoreMap == if m.Items? then old(restoreMap)[pid := want.value.0]
                  else old(restoreMap)
    {
      match m
      case Nothing => return Some(NoDict);
      case EmptyDict => return Some(Dict([]));
      case Items(items) =>
        if pid !in restoreMap {
          restoreMap := restoreMap[pid := map[]];
        }
        ghost var t := restoreMap[pid];
        var ret: Deps := [];
        for i := 0 to |items|
          invariant StoreOk() && pid in restoreMap && restoreMap == old(restoreMap)[pid := restoreMap[pid]]
          invariant RestoreItems(t, items[..i]) == Some((restoreMap[pid], ret))
        {
          ItemsLast(t, items[..i], items[i]);
          assert items[..i + 1] == items[..i] + [items[i]];
          var v := RestoreOne(items[i], pid);
          if v.None? {
            StopsThere(t, items, i);
            return None;
          }
          ret := PutKey(ret, items[i].dep, v.value);
        }
        assert items[..|items|] == items;
        r := Some(Dict(ret));
    }

    /** One entry of `_restore`. */
    method RestoreOne(item: Item, pid: nat) returns (v: Option<Option<Value>>)
      requires StoreOk() && pid in restoreMap
      modifies this`restoreMap, this`store
      ensures StoreOk()
      ensures var want := RestoreItem(old(restoreMap)[pid], item);
              if want.None? then v.None? && restoreMap == old(restoreMap)
              else v == Some(want.value.1) && restoreMap == old(restoreMap)[pid := want.value.0]
    {
      match item
      case Blank(_) => return Some(None);
      case Back(_, num) =>
        if num !in restoreMap[pid] {
          return None;
        }
        return Some(Some(restoreMap[pid][num]));
      case Full(_, fs, num) =>
        if fs !in store {
          store := store[fs := fs];
        }
        var table: Table := restoreMap[pid];
        table := table[num := store[fs]];
        restoreMap := restoreMap[pid := table];
        return Some(Some(store[fs]));
    }
  }

  /** What was announced, the table knows afterwards. */
  lemma {:induction false} RestoredKnows(t: Table, items: seq<Item>, num: nat)
    requires RestoreItems(t, items).Some?
    ensures num in RestoreItems(t, items).value.0 <==> num in t || Announced(items, num)
    decreases |items|
  {
    if items != [] {
      var front, last := items[..|items| - 1], items[|items| - 1];
      RestoredKnows(t, front, num);
      assert items == front + [last];
      AnnouncedLast(front, last, num);
    }
  }

  /** Item i refers back to a number that neither the table nor an earlier item knows. */
  ghost predicate UnknownAt(t: Table, items: seq<Item>, i: nat)
    requires i < |items|
  {
    items[i].Back? && items[i].num !in t && !Announced(items[..i], items[i].num)
  }

  ghost predicate AnyUnknown(t: Table, items: seq<Item>) {
    exists i :: 0 <= i < |items| && UnknownAt(t, items, i)
  }

  lemma AnyUnknownLast(t: Table, front: seq<Item>, last: Item)
    ensures AnyUnknown(t, front + [last])
       <==> AnyUnknown(t, front) || (last.Back? && last.num !in t && !Announced(front, last.num))
  {
    var items := front + [last];
    assert items[|front|] == last && items[..|front|] == front;
    forall i | 0 <= i < |front|
      ensures UnknownAt(t, items, i) <==> UnknownAt(t, front, i)
    {
      assert items[..i] == front[..i];
    }
    if AnyUnknown(t, front) {
      var i :| 0 <= i < |front| && UnknownAt(t, front, i);
      assert UnknownAt(t, items, i);
    }
    assert UnknownAt(t, items, |front|) <==> last.Back? && last.num !in t && !Announced(front, last.num);
  }

  /** A restore fails exactly at a back reference whose number neither the table nor an earlier item knows. */
  lemma {:induction false} RestoreFailsExactly(t: Table, items: seq<Item>)
    ensures RestoreItems(t, items).None? <==> AnyUnknown(t, items)
    decreases |items|
  {
    if items != [] {
      var front, last := items[..|items| - 1], items[|items| - 1];
      RestoreFailsExactly(t, front);
      assert items == front + [last];
      AnyUnknownLast(t, front, last);
      if RestoreItems(t, front).Some? && last.Back? {
        RestoredKnows(t, front, last.num);
      }
    }
  }

  ghost predicate Announced(items: seq<Item>, num: nat) {
    exists i :: 0 <= i < |items| && items[i].Full? && items[i].num == num
  }

  lemma AnnouncedLast(front: seq<Item>, last: Item, num: nat)
    ensures Announced(front + [last], num) <==> Announced(front, num) || (last.Full? && last.num == num)
  {
    var items := front + [last];
    assert items[|front|] == last;
    assert forall i :: 0 <= i < |front| ==> items[i] == front[i];
  }

  // ---- one sender, one receiver ----

  /** The receiver's table knows every number the sender may refer to. */
  ghost predicate Synced(s: Saver, t: Table) {
    forall v :: v in s.saved ==> s.saved[v] < s.count && s.saved[v] in t && t[s.saved[v]] == v
  }

  lemma ItemRoundTrip(s: Saver, t: Table, dep: string, fs: Option<Value>)
    requires Synced(s, t)
    ensures var (s', item) := SaveItem(s, dep, fs);
            var r := RestoreItem(t, item);
            item.dep == dep && r.Some? && r.value.1 == fs && Synced(s', r.value.0)
  {
  }

  lemma ItemsLast(t: Table, items: seq<Item>, last: Item)
    ensures var r := RestoreItems(t, items);
            RestoreItems(t, items + [last]) ==
            if r.None? then None
            else var v := RestoreItem(r.value.0, last);
                 if v.None? then None else Some((v.value.0, PutKey(r.value.1, last.dep, v.value.1)))
  {
    assert (items + [last])[..|items|] == items;
  }

  lemma {:induction false} ItemsRoundTrip(s: Saver, t: Table, deps: Deps)
    requires Synced(s, t) && DistinctKeys(deps)
    ensures var (s', items) := SaveItems(s, deps);
            var r := RestoreItems(t, items);
            r.Some? && r.value.1 == deps && Synced(s', r.value.0)
  {
    if deps != [] {
      var front, last := deps[..|deps| - 1], deps[|deps| - 1];
      ItemsRoundTrip(s, t, front);
      var (s1, items) := SaveItems(s, front);
      var t1 := RestoreItems(t, items).value.0;
      ItemRoundTrip(s1, t1, last.0, last.1);
      ItemsLast(t, items, SaveItem(s1, last.0, last.1).1);
      assert PutKey(front, last.0, last.1) == front + [last] == deps;
    }
  }

  lemma RoundTrip(s: Saver, t: Table, input: Input)
    requires Synced(s, t) && ValidInput(input)
    ensures var (s', m) := Save(s, input);
            var r := Restore(t, m);
            r.Some? && r.value.1 == input && Synced(s', r.value.0)
  {
    if input.Dict? {
      ItemsRoundTrip(s, t, input.deps);
    }
  }

  // ---- values sent in full ----

  function Fulls(items: seq<Item>): seq<Value> {
    if items == [] then []
    else Fulls(items[..|items| - 1]) + if items[|items| - 1].Full? then [items[|items| - 1].fs] else []
  }

  ghost predicate NoDuplicates(s: seq<Value>) {
    forall i, j :: 0 <= i < j < |s| ==> s[i] != s[j]
  }

  /** The values sent in full between saver states s and s': distinct, new, and all that was added. */
  ghost predicate SentNew(s: Saver, s': Saver, fulls: seq<Value>) {
    && NoDuplicates(fulls)
    && (forall v :: v in fulls ==> v !in s.saved)
    && (forall v :: v in s'.saved <==> v in s.saved || v in fulls)
  }

  lemma SentNewConcat(s: Saver, s1: Saver, s2: Saver, a: seq<Value>, b: seq<Value>)
    requires SentNew(s, s1, a) && SentNew(s1, s2, b)
    ensures SentNew(s, s2, a + b)
  {
    forall i, j | 0 <= i < j < |a + b|
      ensures (a + b)[i] != (a + b)[j]
    {
      if i < |a| <= j {
        assert a[i] in a && b[j - |a|] in b;
      }
    }
  }

  lemma FullsLast(items: seq<Item>, last: Item)
    ensures Fulls(items + [last]) == Fulls(items) + if last.Full? then [last.fs] else []
  {
    assert (items + [last])[..|items|] == items;
  }

  lemma OneNew(s: Saver, dep: string, fs: Option<Value>)
    ensures var (s', item) := SaveItem(s, dep, fs);
            SentNew(s, s', if item.Full? then [item.fs] else [])
  {
  }

  function Numbers(items: seq<Item>): seq<nat> {
    if |items| == 0 then []
    else Numbers(items[..|items| - 1]) + if items[|items| - 1].Full? then [items[|items| - 1].num] else []
  }

  /** Full values are numbered one after the other. */
  lemma {:induction false} NumberedInOrder(s: Saver, deps: Deps)
    ensures var (s', items) := SaveItems(s, deps);
            && s'.count == s.count + |Numbers(items)|
            && forall k :: 0 <= k < |Numbers(items)| ==> Numbers(items)[k] == s.count + k
  {
    if deps != [] {
      var front, last := deps[..|deps| - 1], deps[|deps| - 1];
      NumberedInOrder(s, front);
      var (s1, items) := SaveItems(s, front);
      var (s2, item) := SaveItem(s1, last.0, last.1);
      assert (items + [item])[..|items|] == items;
    }
  }

  /** A value goes out in full exactly when the sender had not saved it since its reset, and then only once. */
  lemma {:induction false} FullsAreNew(s: Saver, deps: Deps)
    ensures var (s', items) := SaveItems(s, deps); SentNew(s, s', Fulls(items))
  {
    if deps != [] {
      var front, last := deps[..|deps| - 1], deps[|deps| - 1];
      FullsAreNew(s, front);
      var (s1, items) := SaveItems(s, front);
      var (s2, item) := SaveItem(s1, last.0, last.1);
      OneNew(s1, last.0, last.1);
      FullsLast(items, item);
      SentNewConcat(s, s1, s2, Fulls(items), if item.Full? then [item.fs] else []);
    }
  }

  /** Some key of the dictionary has this value. */
  ghost predicate Occurs(deps: Deps, v: Value) {
    exists d :: d in deps && d.1 == Some(v)
  }

  lemma {:induction false} SavedExactly(s: Saver, deps: Deps, v: Value)
    ensures v in SaveItems(s, deps).0.saved <==> v in s.saved || Occurs(deps, v)
  {
    if deps != [] {
      var front, last := deps[..|deps| - 1], deps[|deps| - 1];
      SavedExactly(s, front, v);
      assert deps == front + [last];
      assert Occurs(deps, v) <==> Occurs(front, v) || last.1 == Some(v) by {
        assert last in deps;
      }
    }
  }

  function FullsOf(m: Message): seq<Value> {
    if m.Items? then Fulls(m.items) else []
  }

  /** All messages of a process between two resets. */
  function SaveAll(s: Saver, inputs: seq<Input>): (Saver, seq<Message>) {
    if inputs == [] then (s, [])
    else
      var (s1, ms) := SaveAll(s, inputs[..|inputs| - 1]);
      var (s2, m) := Save(s1, inputs[|inputs| - 1]);
      (s2, ms + [m])
  }

  function FullsOfAll(ms: seq<Message>): seq<Value> {
    if ms == [] then [] else FullsOfAll(ms[..|ms| - 1]) + FullsOf(ms[|ms| - 1])
  }

  lemma MessageNew(s: Saver, input: Input)
    ensures var (s', m) := Save(s, input); SentNew(s, s', FullsOf(m))
  {
    if input.Dict? {
      FullsAreNew(s, input.deps);
    }
  }

  ghost predicate OccursIn(inputs: seq<Input>, v: Value) {
    exists input :: input in inputs && input.Dict? && Occurs(input.deps, v)
  }

  lemma {:induction false} AllSent(inputs: seq<Input>)
    ensures var (s, ms) := SaveAll(FRESH, inputs); SentNew(FRESH, s, FullsOfAll(ms))
  {
    if inputs != [] {
      var front, last := inputs[..|inputs| - 1], inputs[|inputs| - 1];
      AllSent(front);
      var (s1, ms) := SaveAll(FRESH, front);
      var (s2, m) := Save(s1, last);
      assert (ms + [m])[..|ms|] == ms;
      MessageNew(s1, last);
      SentNewConcat(FRESH, s1, s2, FullsOfAll(ms), FullsOf(m));
    }
  }

  lemma {:induction false} AllSaved(inputs: seq<Input>, v: Value)
    ensures v in SaveAll(FRESH, inputs).0.saved <==> OccursIn(inputs, v)
  {
    if inputs != [] {
      var front, last := inputs[..|inputs| - 1], inputs[|inputs| - 1];
      AllSaved(front, v);
      assert inputs == front + [last] && last in inputs;
      if last.Dict? {
        SavedExactly(SaveAll(FRESH, front).0, last.deps, v);
      }
      assert OccursIn(inputs, v) <==> OccursIn(front, v) || (last.Dict? && Occurs(last.deps, v));
    }
  }

  /** Between resets every value of any dictionary is sent in full exactly once, and nothing else is. */
  lemma SentInFullOnce(inputs: seq<Input>)
    ensures var fulls := FullsOfAll(SaveAll(FRESH, inputs).1);
            NoDuplicates(fulls) && forall v :: v in fulls <==> OccursIn(inputs, v)
  {
    AllSent(inputs);
    forall v
      ensures v in FullsOfAll(SaveAll(FRESH, inputs).1) <==> OccursIn(inputs, v)
    {
      AllSaved(inputs, v);
    }
  }
}

/** Many processes streaming to one receiver. */
module CodecRuns {
  import opened Sequences
  import opened BackRefCodec

  type Pid = nat

  /** One pickled recipe: the three dictionaries, saved and restored in this order. */
  datatype Info = Info(gendeps: Input, taskdeps: Input, varvals: Input)
  datatype Wire = Wire(gendeps: Message, taskdeps: Message, varvals: Message)

  ghost predicate ValidInfo(i: Info) {
    ValidInput(i.gendeps) && ValidInput(i.taskdeps) && ValidInput(i.varvals)
  }

  /** `__getstate__` */
  function Pickle(s: Saver, i: Info): (Saver, Wire) {
    var (s1, a) := Save(s, i.gendeps);
    var (s2, b) := Save(s1, i.taskdeps);
    var (s3, c) := Save(s2, i.varvals);
    (s3, Wire(a, b, c))
  }

  /** `__setstate__` */
  function Unpickle(t: Table, w: Wire): Option<(Table, Info)> {
    var a := Restore(t, w.gendeps);
    if a.None? then None else
    var b := Restore(a.value.0, w.taskdeps);
    if b.None? then None else
    var c := Restore(b.value.0, w.varvals);
    if c.None? then None else Some((c.value.0, Info(a.value.1, b.value.1, c.value.1)))
  }

  lemma InfoRoundTrip(s: Saver, t: Table, i: Info)
    requires Synced(s, t) && ValidInfo(i)
    ensures var (s', w) := Pickle(s, i);
            var r := Unpickle(t, w);
            r.Some? && r.value.1 == i && Synced(s', r.value.0)
  {
    RoundTrip(s, t, i.gendeps);
    var (s1, a) := Save(s, i.gendeps);
    var t1 := Restore(t, a).value.0;
    RoundTrip(s1, t1, i.taskdeps);
    var (s2, b) := Save(s1, i.taskdeps);
    RoundTrip(s2, Restore(t1, b).value.0, i.varvals);
  }

  /** The parts of one process: its saver, its records on the way, and the receiver's table for it. */
  datatype Channel = Channel(saver: Saver, transit: seq<Wire>, table: Table, sent: seq<Info>, got: seq<Info>,
                             failed: bool)

  const START := Channel(FRESH, [], map[], [], [], false)

  type Net = map<Pid, Channel>

  datatype Step = Send(pid: Pid, info: Info) | ResetSaver(pid: Pid) | Receive(pid: Pid)

  function At(net: Net, pid: Pid): Channel {
    if pid in net then net[pid] else START
  }

  function StepChannel(c: Channel, step: Step): Channel {
    match step
    case Send(_, info) =>
      var (s, w) := Pickle(c.saver, info);
      c.(saver := s, transit := c.transit + [w], sent := c.sent + [info])
    case ResetSaver(_) => c.(saver := FRESH)
    case Receive(_) =>
      if c.transit == [] then c
      else
        var r := Unpickle(c.table, c.transit[0]);
        if r.None? then c.(transit := c.transit[1..], failed := true)
        else c.(transit := c.transit[1..], table := r.value.0, got := c.got + [r.value.1])
  }

  function Next(net: Net, step: Step): Net {
    net[step.pid := StepChannel(At(net, step.pid), step)]
  }

  function Run(net: Net, steps: seq<Step>): Net {
    if steps == [] then net else Next(Run(net, steps[..|steps| - 1]), steps[|steps| - 1])
  }

  /** Restoring what is on the way gives what is still owed, and ends in a table the saver can go on with. */
  ghost predicate Owes(t: Table, transit: seq<Wire>, owed: seq<Info>, s: Saver)
    decreases |transit|
  {
    if transit == [] then owed == [] && Synced(s, t)
    else
      var r := Unpickle(t, transit[0]);
      owed != [] && r.Some? && r.value.1 == owed[0] && Owes(r.value.0, transit[1..], owed[1..], s)
  }

  ghost predicate Faithful(c: Channel) {
    && !c.failed
    && |c.got| <= |c.sent| && c.got == c.sent[..|c.got|]
    && Owes(c.table, c.transit, c.sent[|c.got|..], c.saver)
  }

  lemma {:induction false} OwesMore(t: Table, transit: seq<Wire>, owed: seq<Info>, s: Saver, i: Info)
    requires Owes(t, transit, owed, s) && ValidInfo(i)
    ensures var (s', w) := Pickle(s, i); Owes(t, transit + [w], owed + [i], s')
    decreases |transit|
  {
    var (s', w) := Pickle(s, i);
    if transit == [] {
      InfoRoundTrip(s, t, i);
      assert [w][1..] == [] && [i][1..] == [];
    } else {
      OwesMore(Unpickle(t, transit[0]).value.0, transit[1..], owed[1..], s, i);
      assert (transit + [w])[1..] == transit[1..] + [w];
      assert (owed + [i])[1..] == owed[1..] + [i];
    }
  }

  lemma {:induction false} OwesReset(t: Table, transit: seq<Wire>, owed: seq<Info>, s: Saver)
    requires Owes(t, transit, owed, s)
    ensures Owes(t, transit, owed, FRESH)
    decreases |transit|
  {
    if transit != [] {
      OwesReset(Unpickle(t, transit[0]).value.0, transit[1..], owed[1..], s);
    }
  }

  lemma StepFaithful(c: Channel, step: Step)
    requires Faithful(c) && (step.Send? ==> ValidInfo(step.info))
    ensures Faithful(StepChannel(c, step))
  {
    var owed := c.sent[|c.got|..];
    match step {
      case Send(_, info) =>
        OwesMore(c.table, c.transit, owed, c.saver, info);
        assert (c.sent + [info])[|c.got|..] == owed + [info];
      case ResetSaver(_) => OwesReset(c.table, c.transit, owed, c.saver);
      case Receive(_) =>
        if c.transit != [] {
          assert c.got + [owed[0]] == c.sent[..|c.got| + 1];
          assert owed[1..] == c.sent[|c.got| + 1..];
        }
    }
  }

  /**
   In every interleaving of processes that send, reset at any record boundary, and are received in their own
   order, no restore fails, and what was restored from a process is exactly what it saved first.
   */
  lemma {:induction false} RunFaithful(steps: seq<Step>, pid: Pid)
    requires forall s :: s in steps && s.Send? ==> ValidInfo(s.info)
    ensures Faithful(At(Run(map[], steps), pid))
  {
    if steps != [] {
      var front := steps[..|steps| - 1];
      RunFaithful(front, pid);
      if steps[|steps| - 1].pid == pid {
        StepFaithful(At(Run(map[], front), pid), steps[|steps| - 1]);
      }
    }
  }

  /** Once nothing is on the way, everything saved has been restored. */
  lemma AllArrived(steps: seq<Step>, pid: Pid)
    requires forall s :: s in steps && s.Send? ==> ValidInfo(s.info)
    requires At(Run(map[], steps), pid).transit == []
    ensures var c := At(Run(map[], steps), pid); c.got == c.sent && !c.failed
  {
    RunFaithful(steps, pid);
    var c := At(Run(map[], steps), pid);
    assert c.sent == c.sent[..|c.got|] + c.sent[|c.got|..];
  }
}
