/**
 The text in which a recipe keeps the files it takes checksums of, `name:True name:False ...`, cut again into its
 items although names may hold spaces and colons.
 */
module ChecksumLists {
  import opened Sequences

  datatype Item = Item(name: string, present: bool)

  function Flag(present: bool): string {
    if present then "True" else "False"
  }

  /** An item as it is written. */
  function Text(i: Item): string {
    i.name + ":" + Flag(i.present)
  }

  function Texts(items: seq<Item>): seq<string> {
    seq(|items|, i requires 0 <= i < |items| => Text(items[i]))
  }

  function ListText(items: seq<Item>): string {
    Join(Texts(items), ' ')
  }

  predicate AfterFlag(s: string) {
    EndsWith(s, ":True") || EndsWith(s, ":False")
  }

  function StripLeft(s: string): (r: string)
    ensures |r| <= |s|
    ensures r == "" || !IsSpace(r[0])
  {
    if s != "" && IsSpace(s[0]) then StripLeft(s[1..]) else s
  }

  function Strip(s: string): string
    decreases |s|
  {
    if s != "" && IsSpace(s[|s| - 1]) then Strip(s[..|s| - 1]) else StripLeft(s)
  }

  /** Cutting at every run of spaces that follows a flag; cur is the piece so far. */
  function Cut(cur: string, s: string): (pieces: seq<string>)
    ensures |pieces| >= 1
    decreases |s|
  {
    if s == "" then [cur]
    else if AfterFlag(cur) && IsSpace(s[0]) then [cur] + Cut("", StripLeft(s))
    else Cut(cur + [s[0]], s[1..])
  }

  function Pieces(text: string): seq<string> {
    var fl := Strip(text);
    if fl == "" then [] else Cut("", fl)
  }

  /** `rsplit(":", 1)`; None stands for the error when there is no colon. */
  function Parts(piece: string): Option<(string, string)>
    decreases |piece|
  {
    if piece == "" then None
    else if piece[|piece| - 1] == ':' then Some((piece[..|piece| - 1], ""))
    else match Parts(piece[..|piece| - 1])
      case None => None
      case Some(p) => Some((p.0, p.1 + [piece[|piece| - 1]]))
  }

  // ---- one item ----

  lemma {:induction false} PartsOfConcat(name: string, exist: string)
    requires ':' !in exist
    ensures Parts(name + ":" + exist) == Some((name, exist))
    decreases |exist|
  {
    var piece := name + ":" + exist;
    if exist == "" {
      assert piece[..|piece| - 1] == name;
    } else {
      var front := exist[..|exist| - 1];
      assert piece[..|piece| - 1] == name + ":" + front;
      PartsOfConcat(name, front);
      assert exist == front + [exist[|exist| - 1]];
    }
  }

  /** Name and flag of a written item are always told apart. */
  lemma ItemParts(i: Item)
    ensures Parts(Text(i)) == Some((i.name, Flag(i.present)))
  {
    PartsOfConcat(i.name, Flag(i.present));
  }

  /** No space inside the name follows a flag, and none leads. */
  predicate Nameable(name: string) {
    && StripLeft(name) == name
    && forall n :: 0 <= n < |name| ==> !BreaksAt(name, n)
  }

  predicate BreaksAt(s: string, n: nat)
    requires n < |s|
  {
    AfterFlag(s[..n]) && IsSpace(s[n])
  }

  predicate Whole(s: string) {
    forall n :: 0 <= n < |s| ==> !BreaksAt(s, n)
  }

  lemma NameWhole(i: Item)
    ensures Whole(i.name) <==> Whole(Text(i))
  {
    var s := Text(i);
    forall n | 0 <= n < |i.name|
      ensures BreaksAt(s, n) <==> BreaksAt(i.name, n)
    {
      assert s[..n] == i.name[..n];
    }
    forall n | |i.name| <= n < |s|
      ensures !BreaksAt(s, n)
    {
      assert s[n] in ":" + Flag(i.present);
    }
    if Whole(s) {
      forall n | 0 <= n < |i.name|
        ensures !BreaksAt(i.name, n)
      {
        assert !BreaksAt(s, n);
      }
    }
    if Whole(i.name) {
      forall n | 0 <= n < |s|
        ensures !BreaksAt(s, n)
      {
        if n < |i.name| {
          assert !BreaksAt(i.name, n);
        }
      }
    }
  }

  lemma {:induction false} StripLeftBefore(s: string, t: string)
    requires t != "" && !IsSpace(t[0])
    ensures StripLeft(s + t) == StripLeft(s) + t
  {
    if s == "" {
      assert s + t == t;
    } else if IsSpace(s[0]) {
      assert (s + t)[1..] == s[1..] + t;
      StripLeftBefore(s[1..], t);
    }
  }

  lemma StripLeftOfText(i: Item)
    ensures StripLeft(Text(i)) == Text(Item(StripLeft(i.name), i.present))
  {
    var end := ":" + Flag(i.present);
    assert end[0] == ':';
    StripLeftBefore(i.name, end);
    assert Text(i) == i.name + end;
  }

  lemma TextEnds(i: Item)
    ensures AfterFlag(Text(i)) && !IsSpace(Text(i)[|Text(i)| - 1])
  {
    var s, end := Text(i), ":" + Flag(i.present);
    assert s[|i.name|..] == end && |s| - |end| == |i.name|;
    assert s[|s| - 1] == 'e';
  }

  // ---- the whole list ----

  lemma {:induction false} StripLeftOfConcat(s: string, t: string)
    requires s != "" && !IsSpace(s[|s| - 1])
    ensures StripLeft(s + t) == StripLeft(s) + t
    ensures StripLeft(s) != "" && StripLeft(s)[|StripLeft(s)| - 1] == s[|s| - 1]
  {
    if IsSpace(s[0]) {
      assert (s + t)[1..] == s[1..] + t;
      StripLeftOfConcat(s[1..], t);
    }
  }

  lemma EndsWithTail(s: string, t: string, end: string)
    requires EndsWith(s + t, end) && |end| <= |t|
    ensures EndsWith(t, end)
  {
    assert (s + t)[|s + t| - |end|..] == t[|t| - |end|..];
  }

  /** Leading spaces do not matter to the flag at the end. */
  lemma {:induction false} FlagStays(s: string, end: string)
    requires EndsWith(s, end) && forall c :: c in end ==> !IsSpace(c)
    ensures EndsWith(StripLeft(s), end)
    decreases |s|
  {
    if s != "" && IsSpace(s[0]) {
      assert |end| == |s| ==> s == end;
      assert s == s[..1] + s[1..];
      EndsWithTail(s[..1], s[1..], end);
      FlagStays(s[1..], end);
    }
  }

  lemma EndAfterStrip(cur: string, s: string, end: string)
    requires EndsWith(cur + s, end) && s != "" && IsSpace(s[0]) && forall c :: c in end ==> !IsSpace(c)
    ensures EndsWith(StripLeft(s), end)
  {
    var whole := cur + s;
    assert whole[|cur|] == s[0];
    assert forall i :: 0 <= i < |end| ==> whole[|whole| - |end| + i] == end[i];
    EndsWithTail(cur, s, end);
    FlagStays(s, end);
  }

  lemma FlagAfterStrip(cur: string, s: string)
    requires AfterFlag(cur + s) && s != "" && IsSpace(s[0])
    ensures AfterFlag(StripLeft(s))
  {
    if EndsWith(cur + s, ":True") {
      EndAfterStrip(cur, s, ":True");
    } else {
      EndAfterStrip(cur, s, ":False");
    }
  }

  lemma CutBreaks(cur: string, s: string)
    requires AfterFlag(cur) && s != "" && IsSpace(s[0])
    ensures Cut(cur, s) == [cur] + Cut("", StripLeft(s))
  {
  }

  lemma CutGoesOn(cur: string, s: string)
    requires s != "" && !(AfterFlag(cur) && IsSpace(s[0]))
    ensures Cut(cur, s) == Cut(cur + [s[0]], s[1..])
  {
  }

  /** Cutting before the tail, which starts with a space, does not depend on the tail. */
  ghost predicate CutApart(cur: string, s: string, tail: string) {
    Cut(cur, s + tail) == Cut(cur, s) + Cut("", StripLeft(tail))
  }

  lemma ApartAfterBreak(cur: string, s: string, tail: string)
    requires AfterFlag(cur) && s != "" && IsSpace(s[0]) && !IsSpace(s[|s| - 1])
    requires CutApart("", StripLeft(s), tail)
    ensures CutApart(cur, s, tail)
  {
    StripLeftOfConcat(s, tail);
    CutBreaks(cur, s);
    CutBreaks(cur, s + tail);
    PrependAssociates(cur, Cut("", StripLeft(s)), Cut("", StripLeft(tail)));
  }

  lemma PrependAssociates(x: string, a: seq<string>, b: seq<string>)
    ensures [x] + (a + b) == [x] + a + b
  {
  }

  lemma ApartAfterOne(cur: string, s: string, tail: string)
    requires s != "" && !(AfterFlag(cur) && IsSpace(s[0]))
    requires CutApart(cur + [s[0]], s[1..], tail)
    ensures CutApart(cur, s, tail)
  {
    var all := s + tail;
    assert all[0] == s[0] && all[1..] == s[1..] + tail;
    CutGoesOn(cur, s);
    CutGoesOn(cur, all);
  }

  lemma ApartAtEnd(cur: string, tail: string)
    requires AfterFlag(cur) && tail != "" && IsSpace(tail[0])
    ensures CutApart(cur, "", tail)
  {
    CutBreaks(cur, tail);
    assert "" + tail == tail;
  }

  /** Cutting a text that ends in a flag and goes on with a space. */
  lemma {:induction false} CutConcat(cur: string, s: string, tail: string)
    requires AfterFlag(cur + s) && tail != "" && IsSpace(tail[0])
    requires s != "" ==> !IsSpace(s[|s| - 1])
    ensures CutApart(cur, s, tail)
    decreases |s|
  {
    if s == "" {
      assert cur + s == cur;
      ApartAtEnd(cur, tail);
    } else if AfterFlag(cur) && IsSpace(s[0]) {
      StripLeftOfConcat(s, tail);
      FlagAfterStrip(cur, s);
      assert "" + StripLeft(s) == StripLeft(s);
      CutConcat("", StripLeft(s), tail);
      ApartAfterBreak(cur, s, tail);
    } else {
      assert cur + [s[0]] + s[1..] == cur + s;
      CutConcat(cur + [s[0]], s[1..], tail);
      ApartAfterOne(cur, s, tail);
    }
  }

  predicate WholeFrom(s: string, from: nat) {
    forall n :: from <= n < |s| ==> !BreaksAt(s, n)
  }

  /** One piece comes back exactly when nothing breaks the text. */
  lemma {:induction false} CutWhole(cur: string, s: string)
    ensures |Cut(cur, s)| == 1 <==> WholeFrom(cur + s, |cur|)
    ensures WholeFrom(cur + s, |cur|) ==> Cut(cur, s) == [cur + s]
    decreases |s|
  {
    var all := cur + s;
    if s == "" {
      assert all == cur;
    } else {
      assert all[..|cur|] == cur && all[|cur|] == s[0];
      assert BreaksAt(all, |cur|) <==> AfterFlag(cur) && IsSpace(s[0]);
      if !BreaksAt(all, |cur|) {
        assert cur + [s[0]] + s[1..] == all;
        CutWhole(cur + [s[0]], s[1..]);
      }
    }
  }

  /** The pieces of a list, the spaces before its first item dropped. */
  function ListPieces(items: seq<Item>): seq<string> {
    if items == [] then [] else Cut("", StripLeft(ListText(items)))
  }

  lemma TextsFirst(items: seq<Item>)
    requires items != []
    ensures ListText(items) == Text(items[0]) + if |items| == 1 then "" else " " + ListText(items[1..])
  {
    assert Texts(items)[1..] == Texts(items[1..]);
  }

  lemma {:induction false} ListEnds(items: seq<Item>)
    requires items != []
    ensures ListText(items) != "" && !IsSpace(ListText(items)[|ListText(items)| - 1])
  {
    TextsFirst(items);
    TextEnds(items[0]);
    if |items| > 1 {
      ListEnds(items[1..]);
    }
  }

  lemma PiecesOfList(items: seq<Item>)
    ensures Pieces(ListText(items)) == ListPieces(items)
  {
    if items != [] {
      ListEnds(items);
      var text := ListText(items);
      assert Strip(text) == StripLeft(text);
      StripLeftOfConcat(text, "");
    }
  }

  /** Each item is cut as if it stood alone. */
  lemma ListPiecesFirst(items: seq<Item>)
    requires items != []
    ensures ListPieces(items) == Cut("", StripLeft(Text(items[0]))) + ListPieces(items[1..])
  {
    var first := Text(items[0]);
    TextsFirst(items);
    TextEnds(items[0]);
    if |items| == 1 {
      assert ListText(items) == first;
    } else {
      var tail := " " + ListText(items[1..]);
      assert StripLeft(tail) == StripLeft(ListText(items[1..])) by {
        assert tail[1..] == ListText(items[1..]);
      }
      StripLeftOfConcat(first, tail);
      StripLeftOfText(items[0]);
      TextEnds(Item(StripLeft(items[0].name), items[0].present));
      assert "" + StripLeft(first) == StripLeft(first);
      CutConcat("", StripLeft(first), tail);
    }
  }

  /** An item alone is read back exactly when its name is nameable. */
  lemma FirstExactly(i: Item)
    ensures Cut("", StripLeft(Text(i))) == [Text(i)] <==> Nameable(i.name)
  {
    var stripped := Item(StripLeft(i.name), i.present);
    StripLeftOfText(i);
    assert "" + Text(stripped) == Text(stripped);
    CutWhole("", Text(stripped));
    NameWhole(stripped);
    assert Whole(Text(stripped)) <==> WholeFrom(Text(stripped), 0);
    if Text(stripped) == Text(i) {
      ItemParts(i);
      ItemParts(stripped);
    }
  }

  lemma {:induction false} AtLeastOneEach(items: seq<Item>)
    ensures |ListPieces(items)| >= |items|
  {
    if items != [] {
      ListPiecesFirst(items);
      AtLeastOneEach(items[1..]);
    }
  }

  lemma SameParts(first: seq<string>, rest: seq<string>, x: string, xs: seq<string>)
    requires |first| >= 1 && |rest| >= |xs|
    ensures first + rest == [x] + xs <==> first == [x] && rest == xs
  {
    if first + rest == [x] + xs {
      assert |first| == 1;
      assert rest == (first + rest)[1..];
      assert first == (first + rest)[..1];
    }
  }

  ghost predicate AllNameable(items: seq<Item>) {
    forall i :: i in items ==> Nameable(i.name)
  }

  lemma AllNameableFirst(items: seq<Item>)
    requires items != []
    ensures AllNameable(items) <==> Nameable(items[0].name) && AllNameable(items[1..])
  {
    assert items == [items[0]] + items[1..];
  }

  lemma TextsSplit(items: seq<Item>)
    requires items != []
    ensures Texts(items) == [Text(items[0])] + Texts(items[1..])
  {
  }

  lemma {:induction false} CutExactly(items: seq<Item>)
    ensures ListPieces(items) == Texts(items) <==> AllNameable(items)
  {
    if items != [] {
      var i, rest := items[0], items[1..];
      ListPiecesFirst(items);
      FirstExactly(i);
      AtLeastOneEach(rest);
      CutExactly(rest);
      TextsSplit(items);
      SameParts(Cut("", StripLeft(Text(i))), ListPieces(rest), Text(i), Texts(rest));
      AllNameableFirst(items);
    }
  }

  /** The written list is cut into exactly its items exactly when every name is nameable. */
  lemma ListDecodesExactly(items: seq<Item>)
    ensures Pieces(ListText(items)) == Texts(items) <==> AllNameable(items)
  {
    PiecesOfList(items);
    CutExactly(items);
  }

  lemma BrokenName()
    ensures !Nameable("a:True b")
  {
    var name := "a:True b";
    assert |name| == 8 && name[6] == ' ';
    assert AfterFlag(name[..6]) by {
      assert name[..6][1..] == ":True";
    }
    assert BreaksAt(name, 6);
  }

  /** A name that holds a flag and a space is cut in two. */
  lemma SplitName()
    ensures var items := [Item("a:True b", true)]; Pieces(ListText(items)) != Texts(items)
  {
    var items := [Item("a:True b", true)];
    BrokenName();
    assert items[0] in items;
    ListDecodesExactly(items);
  }
}
